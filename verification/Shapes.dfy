/** The shape predicates of crates/yeomna-pipeline/src/document_graph.rs, which the edge tables of
    crates/yeomna-store/schema.sql mirror. */
module Shapes {

  predicate IsLower(c: char) {
    'a' <= c <= 'z'
  }

  predicate IsDigit(c: char) {
    '0' <= c <= '9'
  }

  predicate IsWordChar(c: char) {
    IsLower(c) || IsDigit(c) || c == '_' || c == '-'
  }

  /** `is_word`. */
  predicate IsWord(s: string) {
    s != "" && IsLower(s[0]) && forall i :: 1 <= i < |s| ==> IsWordChar(s[i])
  }

  /** `is_relation`, `^[a-z][a-z0-9_-]{0,62}$`. */
  predicate IsRelation(s: string) {
    IsWord(s) && |s| <= 63
  }

  predicate IsKeyChar(c: char) {
    IsLower(c) || IsDigit(c) || 'A' <= c <= 'Z' || c in {'_', '-', '.', '/', ':', '@', '+'}
  }

  /** `is_key`. */
  predicate IsKey(s: string) {
    s != "" && |s| <= 200 && forall i :: 0 <= i < |s| ==> IsKeyChar(s[i])
  }
}

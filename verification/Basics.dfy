/** What several modules share. */
module Basics {

  datatype Option<T> = None | Some(value: T)

  predicate HasPrefix(s: string, p: string) { |s| >= |p| && s[..|p|] == p }

  /** White space as Unicode defines it. */
  predicate IsWhiteSpace(c: char) {
    || c == ' ' || '\t' <= c <= '\r' || c == '\U{85}' || c == '\U{A0}'
    || c == '\U{1680}' || '\U{2000}' <= c <= '\U{200A}' || c == '\U{2028}' || c == '\U{2029}'
    || c == '\U{202F}' || c == '\U{205F}' || c == '\U{3000}'
  }

  function Flatten<T>(pieces: seq<seq<T>>): seq<T> {
    if pieces == [] then [] else pieces[0] + Flatten(pieces[1..])
  }

  lemma {:induction false} FlattenPush<T>(pieces: seq<seq<T>>, x: seq<T>)
    ensures Flatten(pieces + [x]) == Flatten(pieces) + x
    decreases |pieces|
  {
    if pieces == [] {
      assert [] + [x] == [x] && [x][1..] == [];
    } else {
      assert (pieces + [x])[1..] == pieces[1..] + [x];
      FlattenPush(pieces[1..], x);
      assert pieces[0] + (Flatten(pieces[1..]) + x) == pieces[0] + Flatten(pieces[1..]) + x;
    }
  }
}

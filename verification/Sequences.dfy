/** What becomes of the elements of a sequence when one is put in or taken out. */
module Sequences {

  lemma InsertAt<T>(s: seq<T>, i: nat, x: T, p: nat)
    requires i <= |s| && p <= |s|
    ensures (s[..i] + [x] + s[i..])[p] == if p < i then s[p] else if p == i then x else s[p - 1]
  {
  }

  lemma RemoveAt<T>(s: seq<T>, i: nat, p: nat)
    requires i < |s| && p < |s| - 1
    ensures (s[..i] + s[i + 1..])[p] == if p < i then s[p] else s[p + 1]
  {
  }

  lemma InsertBag<T>(s: seq<T>, i: nat, x: T)
    requires i <= |s|
    ensures multiset(s[..i] + [x] + s[i..]) == multiset(s) + multiset{x}
  {
    assert s == s[..i] + s[i..];
  }

  lemma DropFirst<T>(s: seq<T>)
    requires s != []
    ensures s[..0] + s[1..] == s[1..]
  {
  }

  lemma Regrouped<T>(a: seq<T>, b: seq<T>, c: seq<T>)
    ensures (a + b) + c == a + (b + c)
  {
  }
}

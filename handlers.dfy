/** The subscriber lists of the event table: `List<NaoEventHandler>` values
    that SubscribeToEvent extends with Contains-then-Add and that
    UnsubscribeToEvent shrinks with List.Remove. */
module Handlers {

  /** A callback handle. `List.Contains` and `List.Remove` compare delegates
      with `Delegate.Equals` (same target and same method), so a handle names
      one such equivalence class of delegates by a number. */
  type Handler = nat

  predicate NoDuplicates<T(==)>(s: seq<T>) {
    forall i, j :: 0 <= i < j < |s| ==> s[i] != s[j]
  }

  /** The event table keeps, for every name it holds, a non-empty list without
      duplicates. */
  ghost predicate TableValid(table: map<string, seq<Handler>>) {
    forall name :: name in table ==> table[name] != [] && NoDuplicates(table[name])
  }

  /** Position of the first occurrence of `x` (List.IndexOf). */
  function IndexOf<T(==)>(s: seq<T>, x: T): (i: nat)
    requires x in s
    ensures i < |s| && s[i] == x
    ensures forall j :: 0 <= j < i ==> s[j] != x
  {
    if s[0] == x then 0 else 1 + IndexOf(s[1..], x)
  }

  /** `if (!list.Contains(h)) list.Add(h)`: registration is idempotent and keeps
      the registration order of the handlers already present. */
  function AddHandler(hs: seq<Handler>, h: Handler): (r: seq<Handler>)
    ensures h in r
    ensures forall x :: x in r <==> x in hs || x == h
    ensures |hs| <= |r| <= |hs| + 1 && r[..|hs|] == hs
    ensures r == hs <==> h in hs
    ensures NoDuplicates(hs) ==> NoDuplicates(r)
  {
    if h in hs then hs else hs + [h]
  }

  /** List.Remove: scans from the front and deletes the first occurrence of `x`,
      if there is one; the other handlers keep their order. */
  function RemoveHandler(s: seq<Handler>, x: Handler): (r: seq<Handler>)
    ensures x !in s ==> r == s
    ensures |r| == if x in s then |s| - 1 else |s|
  {
    if s == [] then []
    else if s[0] == x then s[1..]
    else
      var rest := RemoveHandler(s[1..], x);
      assert x !in s ==> rest == s[1..] && [s[0]] + rest == s;
      [s[0]] + rest
  }

  /** What is removed is the first occurrence (List.IndexOf, then RemoveAt). */
  lemma {:induction false} RemoveHandlerCutsFirst(s: seq<Handler>, x: Handler)
    requires x in s
    ensures RemoveHandler(s, x) == s[..IndexOf(s, x)] + s[IndexOf(s, x) + 1..]
  {
    if s[0] != x {
      RemoveHandlerCutsFirst(s[1..], x);
      var i := IndexOf(s[1..], x);
      assert s[..1 + i] == [s[0]] + s[1..][..i];
      assert s[2 + i..] == s[1..][i + 1..];
    }
  }

  /** Removal invents nothing and keeps every other handler. */
  lemma {:induction false} RemoveHandlerMembers(s: seq<Handler>, x: Handler)
    ensures forall y :: y in RemoveHandler(s, x) ==> y in s
    ensures forall y :: y in s && y != x ==> y in RemoveHandler(s, x)
  {
    if s != [] && s[0] != x {
      RemoveHandlerMembers(s[1..], x);
      assert s == [s[0]] + s[1..];
    }
  }

  /** Removing from a list without duplicates takes out exactly that handler,
      shortens a list that held it by one, and keeps it free of duplicates. */
  lemma {:induction false} RemoveHandlerDistinct(s: seq<Handler>, x: Handler)
    requires NoDuplicates(s)
    ensures NoDuplicates(RemoveHandler(s, x)) && x !in RemoveHandler(s, x)
    ensures forall y :: y in RemoveHandler(s, x) <==> y in s && y != x
    ensures x in s ==> |RemoveHandler(s, x)| == |s| - 1
  {
    RemoveHandlerMembers(s, x);
    if s != [] {
      var tail := s[1..];
      TailDistinct(s);
      if s[0] != x {
        RemoveHandlerDistinct(tail, x);
        ConsDistinct(s[0], RemoveHandler(tail, x));
      }
    }
  }

  lemma TailDistinct(s: seq<Handler>)
    requires s != [] && NoDuplicates(s)
    ensures NoDuplicates(s[1..]) && s[0] !in s[1..]
  {
    var tail := s[1..];
    forall i, j | 0 <= i < j < |tail| ensures tail[i] != tail[j] {
      assert tail[i] == s[i + 1] && tail[j] == s[j + 1];
    }
    forall j | 0 <= j < |tail| ensures tail[j] != s[0] {
      assert tail[j] == s[j + 1];
    }
  }

  lemma ConsDistinct(a: Handler, r: seq<Handler>)
    requires NoDuplicates(r) && a !in r
    ensures NoDuplicates([a] + r)
  {
    var c := [a] + r;
    forall i, j | 0 <= i < j < |c| ensures c[i] != c[j] {
      assert c[j] == r[j - 1];
      if i > 0 { assert c[i] == r[i - 1]; }
    }
  }

  /** What the unsubscribe path relies on: with no duplicates, removing a
      registered handler empties the list exactly when it was the only one. */
  lemma {:induction false} RemoveLast(hs: seq<Handler>, h: Handler)
    requires NoDuplicates(hs) && h in hs
    ensures RemoveHandler(hs, h) == [] <==> hs == [h]
  {
    RemoveHandlerDistinct(hs, h);
    var r := RemoveHandler(hs, h);
    if hs == [h] {
      assert r == [];
    } else {
      assert |hs| >= 2;
      assert |r| == |hs| - 1;
    }
  }
}

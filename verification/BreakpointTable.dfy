/** Breakpoint tables as the MULTI debugger lists them, and who owns which entry. */
module BreakpointTable {

  import opened Prelude

  /** A listed breakpoint; attributes stands for address, hit count and state. */
  datatype Breakpoint = Breakpoint(index: u64, location: string, command: Option<string>, attributes: int)

  predicate HasToken(b: Breakpoint, token: string) {
    b.command == Some(token)
  }

  predicate HasIndex(t: seq<Breakpoint>, index: int) {
    exists i :: 0 <= i < |t| && t[i].index == index
  }

  predicate Unique(t: seq<Breakpoint>) {
    forall i, j :: 0 <= i < j < |t| ==> t[i].index != t[j].index
  }

  /** The entries with the token, in order. */
  function Matches(t: seq<Breakpoint>, token: string): seq<Breakpoint> {
    if t == [] then []
    else Matches(t[..|t| - 1], token) + if HasToken(t[|t| - 1], token) then [t[|t| - 1]] else []
  }

  /** The entries without the token, in order. */
  function Others(t: seq<Breakpoint>, token: string): seq<Breakpoint> {
    if t == [] then []
    else Others(t[..|t| - 1], token) + if HasToken(t[|t| - 1], token) then [] else [t[|t| - 1]]
  }

  /** The table without the entry at index. */
  function Without(t: seq<Breakpoint>, index: int): seq<Breakpoint> {
    if t == [] then []
    else Without(t[..|t| - 1], index) + if t[|t| - 1].index == index then [] else [t[|t| - 1]]
  }

  /** The position of an index, or -1. */
  function Position(t: seq<Breakpoint>, index: int): (i: int)
    ensures -1 <= i < |t| && (i >= 0 ==> t[i].index == index)
    ensures i < 0 <==> !HasIndex(t, index)
  {
    if t == [] then -1
    else
      var i := Position(t[..|t| - 1], index);
      assert i < 0 ==> forall j :: 0 <= j < |t| - 1 ==> t[j] == t[..|t| - 1][j];
      if i >= 0 then i else if t[|t| - 1].index == index then |t| - 1 else -1
  }

  /** What b adds: new entries with the token, under indexes not in use. */
  function Added(t: seq<Breakpoint>, entries: seq<Breakpoint>, token: string): (a: seq<Breakpoint>)
    ensures forall i :: 0 <= i < |a| ==> HasToken(a[i], token) && !HasIndex(t, a[i].index)
    ensures Unique(a)
  {
    if entries == [] then []
    else
      var a := Added(t, entries[..|entries| - 1], token);
      var e := entries[|entries| - 1].(command := Some(token));
      if HasIndex(t, e.index) || HasIndex(a, e.index) then a else a + [e]
  }

  // ---------- Lemmas ----------

  lemma {:induction false} SplitMatches(a: seq<Breakpoint>, b: seq<Breakpoint>, token: string)
    ensures Matches(a + b, token) == Matches(a, token) + Matches(b, token)
    ensures Others(a + b, token) == Others(a, token) + Others(b, token)
  {
    hide HasToken, Matches, Others;
    if b == [] {
      assert a + b == a;
      NoEntries(token);
    } else {
      var front, last := b[..|b| - 1], b[|b| - 1];
      SplitMatches(a, front, token);
      assert b == front + [last];
      assert a + b == (a + front) + [last];
      OneMore(a + front, last, token);
      OneMore(front, last, token);
    }
  }

  lemma NoEntries(token: string)
    ensures Matches([], token) == [] && Others([], token) == []
  {
  }

  lemma OneMore(t: seq<Breakpoint>, last: Breakpoint, token: string)
    ensures Matches(t + [last], token) == Matches(t, token) + if HasToken(last, token) then [last] else []
    ensures Others(t + [last], token) == Others(t, token) + if HasToken(last, token) then [] else [last]
  {
    assert (t + [last])[..|t|] == t;
  }

  lemma {:induction false} AllMatch(a: seq<Breakpoint>, token: string)
    requires forall i :: 0 <= i < |a| ==> HasToken(a[i], token)
    ensures Matches(a, token) == a && Others(a, token) == []
  {
    if a != [] { AllMatch(a[..|a| - 1], token); }
  }

  lemma {:induction false} NoneMatch(t: seq<Breakpoint>, token: string)
    requires Matches(t, token) == []
    ensures Others(t, token) == t
  {
    hide Matches, Others, HasToken;
    if t == [] {
      NoEntries(token);
    } else {
      var front, last := t[..|t| - 1], t[|t| - 1];
      assert t == front + [last];
      OneMore(front, last, token);
      NoneMatch(front, token);
    }
  }

  /** An index that is not there removes nothing. */
  lemma {:induction false} Absent(t: seq<Breakpoint>, index: int)
    requires forall i :: 0 <= i < |t| ==> t[i].index != index
    ensures Without(t, index) == t
  {
    if t != [] { Absent(t[..|t| - 1], index); }
  }

  /** In a table without duplicates one entry goes. */
  lemma {:induction false} WithoutAt(t: seq<Breakpoint>, k: nat)
    requires Unique(t) && k < |t|
    ensures Without(t, t[k].index) == t[..k] + t[k + 1..]
  {
    var front := t[..|t| - 1];
    if k == |t| - 1 {
      Absent(front, t[k].index);
    } else {
      WithoutAt(front, k);
      assert front[..k] + front[k + 1..] + [t[|t| - 1]] == t[..k] + t[k + 1..];
    }
  }

  /** Removing an owned entry takes exactly one match away and nothing else. */
  lemma RemoveOwned(t: seq<Breakpoint>, k: nat, token: string)
    requires Unique(t) && k < |t| && HasToken(t[k], token)
    ensures Others(Without(t, t[k].index), token) == Others(t, token)
    ensures |Matches(Without(t, t[k].index), token)| == |Matches(t, token)| - 1
  {
    hide Matches, Others, Without, HasToken;
    WithoutAt(t, k);
    var a, b := t[..k], t[k + 1..];
    assert t == a + [t[k]] + b;
    AllMatch([t[k]], token);
    SplitMatches(a + [t[k]], b, token);
    SplitMatches(a, [t[k]], token);
    SplitMatches(a, b, token);
  }

  lemma RemovedIsGone(t: seq<Breakpoint>, k: nat)
    requires Unique(t) && k < |t|
    ensures Unique(Without(t, t[k].index)) && !HasIndex(Without(t, t[k].index), t[k].index)
  {
    hide Without;
    WithoutAt(t, k);
  }

  lemma AddedKeepsUnique(t: seq<Breakpoint>, entries: seq<Breakpoint>, token: string)
    requires Unique(t)
    ensures Unique(t + Added(t, entries, token))
  {
  }

  /** A table that holds no token of ours is what is left when all of them are gone. */
  lemma OnlyOursGone(before: seq<Breakpoint>, after: seq<Breakpoint>, token: string)
    requires Matches(before, token) == [] && Matches(after, token) == []
    requires Others(after, token) == Others(before, token)
    ensures after == before
  {
    NoneMatch(before, token);
    NoneMatch(after, token);
  }

  /** Every match is an entry with the token, and every such entry a match. */
  lemma {:induction false} MatchExactly(t: seq<Breakpoint>, token: string, b: Breakpoint)
    ensures b in Matches(t, token) <==> b in t && HasToken(b, token)
  {
    if t != [] {
      MatchExactly(t[..|t| - 1], token, b);
      assert t == t[..|t| - 1] + [t[|t| - 1]];
    }
  }
}

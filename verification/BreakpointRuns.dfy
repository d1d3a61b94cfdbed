/** When a clear succeeds, and what runs of placements and clears under several tokens amount to. */
module BreakpointRuns {

  import opened Prelude
  import opened Decimal
  import opened BreakpointTable
  import opened BreakpointPlacer

  // ---------- When a clear succeeds ----------

  /** From its n-th command on, MULTI does what it is told and reports it. */
  ghost predicate Obeys(env: Environment, n: nat) {
    forall k: nat :: n <= k ==> env.ok(k) && env.applies(k)
  }

  /** The core is there, the breakpoint has a hint, and its handle, if any, is a number that no
      breakpoint with another command uses. */
  predicate Clearable(m: Multi, p: Physical) {
    && p.core in m.tables && p.hintToken != 0
    && (p.handle == ""
        || (ParseHandle(p.handle).Some? && !Reused(m.tables[p.core], ParseHandle(p.handle).value, p.hintToken)))
  }

  predicate Reused(t: seq<Breakpoint>, index: int, hint: u32) {
    var i := Position(t, index);
    i >= 0 && !HasToken(t[i], CommandToken(hint))
  }

  /** In a table without duplicates an index leads to its one entry. */
  lemma PositionIs(t: seq<Breakpoint>, b: Breakpoint)
    requires Unique(t) && b in t
    ensures var i := Position(t, b.index); i >= 0 && t[i] == b
  {
    hide Position;
    var k :| 0 <= k < |t| && t[k] == b;
    assert HasIndex(t, b.index);
  }

  lemma DeleteWorks(m: Multi, env: Environment, core: int, before: seq<Breakpoint>, index: int, token: string)
    requires Current(m, core, before) && Obeys(env, m.calls)
    requires var i := Position(before, index); i >= 0 && HasToken(before[i], token)
    ensures var (n, after) := DeleteExact(m, env, core, before, index, token); after.Some? && n.calls >= m.calls
  {
    hide Without, HasToken;
    RemovedIsGone(before, Position(before, index));
    hide Position;
  }

  lemma {:induction false} ClearTokenWorks(m: Multi, env: Environment, core: int, listed: seq<Breakpoint>,
                                           token: string)
    requires Current(m, core, listed) && Obeys(env, m.calls)
    ensures ClearExactToken(m, env, core, listed, token).1
    decreases |Matches(listed, token)|
  {
    hide Matches, HasToken, DeleteExact, Position, Others, Without;
    var matches := Matches(listed, token);
    if matches != [] {
      var b := matches[0];
      MatchExactly(listed, token, b);
      PositionIs(listed, b);
      DeleteWorks(m, env, core, listed, b.index, token);
      DeleteExactOwned(m, env, core, listed, b.index, token);
      var (n, after) := DeleteExact(m, env, core, listed, b.index, token);
      ClearTokenWorks(n, env, core, after.value, token);
    }
  }

  /** Against a debugger that obeys, a clear succeeds exactly if it can be told what to clear. */
  lemma ClearSucceedsExactly(m: Multi, env: Environment, p: Physical)
    requires WellFormed(m) && Obeys(env, m.calls)
    ensures Clear(m, env, p).1 <==> Clearable(m, p)
  {
    hide Matches, HasToken, DeleteExact, Position, Others, Without, ClearExactToken, CommandToken, ParseHandle;
    ClearNeeds(m, env, p);
    if Clearable(m, p) {
      var (n, listed) := List(m, env, p.core);
      var token := CommandToken(p.hintToken);
      ClearTokenWorks(n, env, p.core, listed.value, token);
      if p.handle != "" {
        var index := ParseHandle(p.handle).value;
        if Position(listed.value, index) >= 0 {
          DeleteWorks(n, env, p.core, listed.value, index, token);
          DeleteExactOwned(n, env, p.core, listed.value, index, token);
          var (k, after) := DeleteExact(n, env, p.core, listed.value, index, token);
          ClearTokenWorks(k, env, p.core, after.value, token);
        }
      }
    }
  }

  /** And whatever the debugger does, it does not succeed otherwise. */
  lemma ClearNeeds(m: Multi, env: Environment, p: Physical)
    requires WellFormed(m)
    ensures Clear(m, env, p).1 ==> Clearable(m, p)
  {
    hide Matches, HasToken, DeleteExact, Position, Others, Without, ClearExactToken, CommandToken, ParseHandle;
  }

  /** What Set returned can be cleared as long as only entries with its token came or went: no
      other breakpoint can have got hold of its index. */
  lemma SetIsClearable(m: Multi, env: Environment, r: PlacementRequest, later: Multi)
    requires WellFormed(m) && WellFormed(later) && Accepted(m, env, r)
    requires Spares(Set(m, env, r).multi, later, r.core, CommandToken(r.hintToken))
    ensures Clearable(later, Set(m, env, r).physical)
  {
    hide Set, Matches, Others, CommandToken, Placed, Position, HasToken, ParseHandle, Accepted;
    var token, p := CommandToken(r.hintToken), Set(m, env, r).physical;
    SetTables(m, env, r);
    SetOwned(m, env, r);
    AcceptedSent(m, env, r);
    SetHandle(m, env, r);
    SparesOn(m, Set(m, env, r).multi, later, r.core, token);
    if p.handle != "" {
      var b := Placed(m, env, r)[0];
      var t := later.tables[r.core];
      var i := Position(t, b.index);
      if i >= 0 {
        OtherIsOlder(m.tables[r.core], t, token, i);
      }
    }
  }

  lemma AcceptedSent(m: Multi, env: Environment, r: PlacementRequest)
    requires WellFormed(m) && Accepted(m, env, r)
    ensures r.core in m.tables && r.hintToken != 0 && Matches(m.tables[r.core], CommandToken(r.hintToken)) == []
    ensures forall i :: 0 <= i < |Placed(m, env, r)| ==> !HasIndex(m.tables[r.core], Placed(m, env, r)[i].index)
  {
    hide Matches, CommandToken, Added;
  }

  /** A handle is the index of the one entry that was placed. */
  lemma SetHandle(m: Multi, env: Environment, r: PlacementRequest)
    requires Accepted(m, env, r)
    ensures var p := Set(m, env, r).physical;
            p.handle != "" ==> |Placed(m, env, r)| == 1 && ParseHandle(p.handle) == Some(Placed(m, env, r)[0].index)
  {
    hide Matches, CommandToken, LineNumber, NewMatches, Value;
    NewAreAdded(m.tables[r.core], Placed(m, env, r), CommandToken(r.hintToken));
    if |Placed(m, env, r)| == 1 { ParseFormat(Placed(m, env, r)[0].index); }
    hide Added, Format;
  }

  /** Where only owned entries came and went, an entry that is not owned was there before. */
  lemma OtherIsOlder(before: seq<Breakpoint>, after: seq<Breakpoint>, token: string, i: nat)
    requires Others(after, token) == Others(before, token) && i < |after|
    ensures HasToken(after[i], token) || HasIndex(before, after[i].index)
  {
    OtherExactly(after, token, after[i]);
    OtherExactly(before, token, after[i]);
    hide Others;
    if !HasToken(after[i], token) {
      assert after[i] in before;
    }
  }

  lemma {:induction false} OtherExactly(t: seq<Breakpoint>, token: string, b: Breakpoint)
    ensures b in Others(t, token) <==> b in t && !HasToken(b, token)
  {
    if t != [] {
      OtherExactly(t[..|t| - 1], token, b);
      assert t == t[..|t| - 1] + [t[|t| - 1]];
    }
  }

  /** Placing and clearing against a debugger that obeys from then on: the clear succeeds and
      everything is as it was. */
  lemma ClearUndoesSet(m: Multi, env: Environment, r: PlacementRequest, later: Multi)
    requires WellFormed(m) && WellFormed(later) && Accepted(m, env, r) && Obeys(env, later.calls)
    requires Spares(Set(m, env, r).multi, later, r.core, CommandToken(r.hintToken))
    ensures var (n, ok) := Clear(later, env, Set(m, env, r).physical); ok && n.tables == m.tables
  {
    hide Set, Clear, Clearable, Spares, Accepted;
    SetIsClearable(m, env, r, later);
    ClearSucceedsExactly(later, env, Set(m, env, r).physical);
    ClearRestores(m, env, r, later);
  }

  // ---------- Several tokens ----------

  /** The entries with none of the tokens, in order. */
  function Foreign(t: seq<Breakpoint>, tokens: set<string>): seq<Breakpoint> {
    if t == [] then []
    else Foreign(t[..|t| - 1], tokens) + if OneOf(t[|t| - 1], tokens) then [] else [t[|t| - 1]]
  }

  predicate OneOf(b: Breakpoint, tokens: set<string>) {
    b.command.Some? && b.command.value in tokens
  }

  lemma {:induction false} OthersKeep(t: seq<Breakpoint>, a: string, b: string, tokens: set<string>)
    ensures a in tokens ==> Foreign(Others(t, a), tokens) == Foreign(t, tokens)
    ensures a != b ==> Matches(Others(t, a), b) == Matches(t, b)
  {
    hide Others, Matches, Foreign;
    if t == [] {
      NoEntries(a);
    } else {
      var front, last := t[..|t| - 1], t[|t| - 1];
      OthersKeep(front, a, b, tokens);
      assert t == front + [last];
      OneMore(front, last, a);
      OneMore(front, last, b);
      ForeignMore(front, last, tokens);
      if HasToken(last, a) {
        assert Others(t, a) == Others(front, a);
      } else {
        OneMore(Others(front, a), last, b);
        ForeignMore(Others(front, a), last, tokens);
      }
    }
  }

  lemma ForeignMore(t: seq<Breakpoint>, last: Breakpoint, tokens: set<string>)
    ensures Foreign(t + [last], tokens) == Foreign(t, tokens) + if OneOf(last, tokens) then [] else [last]
  {
    assert (t + [last])[..|t|] == t;
  }

  lemma {:induction false} NoneForeign(t: seq<Breakpoint>, tokens: set<string>)
    requires forall token :: token in tokens ==> Matches(t, token) == []
    ensures Foreign(t, tokens) == t
  {
    if t != [] {
      var front, last := t[..|t| - 1], t[|t| - 1];
      assert t == front + [last];
      ForeignMore(front, last, tokens);
      forall token | token in tokens ensures Matches(front, token) == [] && !HasToken(last, token) {
        OneMore(front, last, token);
      }
      NoneForeign(front, tokens);
    }
  }

  datatype Operation = Placing(request: PlacementRequest) | Clearing(physical: Physical)

  function CoreOf(op: Operation): int {
    match op
    case Placing(r) => r.core
    case Clearing(p) => p.core
  }

  function TokenOf(op: Operation): string {
    match op
    case Placing(r) => CommandToken(r.hintToken)
    case Clearing(p) => CommandToken(p.hintToken)
  }

  function Do(m: Multi, env: Environment, op: Operation): (Multi, bool)
    requires WellFormed(m)
  {
    match op
    case Placing(r) => (Set(m, env, r).multi, Set(m, env, r).ok)
    case Clearing(p) => Clear(m, env, p)
  }

  lemma DoSpares(m: Multi, env: Environment, op: Operation)
    requires WellFormed(m)
    ensures var n := Do(m, env, op).0; WellFormed(n) && Spares(m, n, CoreOf(op), TokenOf(op))
  {
    hide Set, Clear, Spares, CommandToken;
    match op {
      case Placing(r) => SetOwned(m, env, r);
      case Clearing(p) => ClearOwned(m, env, p);
    }
  }

  /** MULTI after the operations, in that order. */
  function Run(m: Multi, env: Environment, ops: seq<Operation>): (n: Multi)
    requires WellFormed(m)
    ensures WellFormed(n)
  {
    if ops == [] then m
    else
      var before := Run(m, env, ops[..|ops| - 1]);
      DoSpares(before, env, ops[|ops| - 1]);
      Do(before, env, ops[|ops| - 1]).0
  }

  /** An operation leaves the other tokens' entries, and those on other cores, alone. */
  lemma SparesKeeps(m: Multi, n: Multi, core: int, token: string, c: int, other: string, tokens: set<string>)
    requires Spares(m, n, core, token) && WellFormed(m) && c in m.tables
    ensures c in n.tables
    ensures (c, other) != (core, token) ==> Matches(n.tables[c], other) == Matches(m.tables[c], other)
    ensures token in tokens ==> Foreign(n.tables[c], tokens) == Foreign(m.tables[c], tokens)
  {
    hide Matches, Others, Foreign;
    assert c in n.tables.Keys;
    if c == core {
      OthersKeep(m.tables[c], token, other, tokens);
      OthersKeep(n.tables[c], token, other, tokens);
    }
  }

  /** No run touches what carries none of its tokens. */
  lemma {:induction false} RunSpares(m: Multi, env: Environment, ops: seq<Operation>, tokens: set<string>, c: int)
    requires WellFormed(m) && (forall i :: 0 <= i < |ops| ==> TokenOf(ops[i]) in tokens) && c in m.tables
    ensures Run(m, env, ops).tables.Keys == m.tables.Keys
    ensures Foreign(Run(m, env, ops).tables[c], tokens) == Foreign(m.tables[c], tokens)
  {
    hide Do, Foreign, TokenOf;
    if ops != [] {
      var front, op := ops[..|ops| - 1], ops[|ops| - 1];
      RunSpares(m, env, front, tokens, c);
      var before := Run(m, env, front);
      DoSpares(before, env, op);
      SparesKeeps(before, Do(before, env, op).0, CoreOf(op), TokenOf(op), c, "", tokens);
    }
  }

  /** Operations under other tokens or on other cores do not change what one token has on a core. */
  lemma {:induction false} TokenStays(m: Multi, env: Environment, ops: seq<Operation>, k: nat, c: int, token: string)
    requires WellFormed(m) && k <= |ops| && c in m.tables
    requires forall i :: k <= i < |ops| ==> (CoreOf(ops[i]), TokenOf(ops[i])) != (c, token)
    ensures c in Run(m, env, ops).tables && c in Run(m, env, ops[..k]).tables
    ensures Matches(Run(m, env, ops).tables[c], token) == Matches(Run(m, env, ops[..k]).tables[c], token)
  {
    hide Do, Matches, TokenOf, CoreOf;
    if k == |ops| {
      assert ops[..k] == ops;
      CoresStay(m, env, ops);
    } else {
      var front, op := ops[..|ops| - 1], ops[|ops| - 1];
      assert front[..k] == ops[..k];
      TokenStays(m, env, front, k, c, token);
      var before := Run(m, env, front);
      DoSpares(before, env, op);
      SparesKeeps(before, Do(before, env, op).0, CoreOf(op), TokenOf(op), c, token, {});
    }
  }

  lemma {:induction false} CoresStay(m: Multi, env: Environment, ops: seq<Operation>)
    requires WellFormed(m)
    ensures Run(m, env, ops).tables.Keys == m.tables.Keys
  {
    hide Do, TokenOf, CoreOf;
    if ops != [] {
      CoresStay(m, env, ops[..|ops| - 1]);
      DoSpares(Run(m, env, ops[..|ops| - 1]), env, ops[|ops| - 1]);
    }
  }

  /** The last operation under a token on a core is a clear that succeeds. */
  ghost predicate Settles(m: Multi, env: Environment, ops: seq<Operation>, k: nat, c: int, token: string)
    requires WellFormed(m)
  {
    && k < |ops| && ops[k].Clearing? && CoreOf(ops[k]) == c && TokenOf(ops[k]) == token
    && Do(Run(m, env, ops[..k]), env, ops[k]).1
    && forall i :: k < i < |ops| ==> (CoreOf(ops[i]), TokenOf(ops[i])) != (c, token)
  }

  lemma SettledIsGone(m: Multi, env: Environment, ops: seq<Operation>, k: nat, c: int, token: string)
    requires WellFormed(m) && c in m.tables && Settles(m, env, ops, k, c, token)
    ensures c in Run(m, env, ops).tables && Matches(Run(m, env, ops).tables[c], token) == []
  {
    hide Matches, Clear, Set, CommandToken;
    var before := Run(m, env, ops[..k]);
    ClearOwned(before, env, ops[k].physical);
    assert ops[..k + 1][..k] == ops[..k];
    TokenStays(m, env, ops, k + 1, c, token);
  }

  /** Exact undo over whole runs: whatever the order in which breakpoints are placed and cleared
      under any number of tokens, if the last operation under each token on each core it was used
      on is a clear that succeeds, then every table is as it was. */
  lemma RunRestores(m: Multi, env: Environment, ops: seq<Operation>)
    requires WellFormed(m)
    requires forall i, c :: 0 <= i < |ops| && c in m.tables ==> Matches(m.tables[c], TokenOf(ops[i])) == []
    requires forall i :: 0 <= i < |ops| && CoreOf(ops[i]) in m.tables
                         ==> exists k: nat :: Settles(m, env, ops, k, CoreOf(ops[i]), TokenOf(ops[i]))
    ensures Run(m, env, ops).tables == m.tables
  {
    hide Matches, Settles, TokenOf, CoreOf, Do, Run, Foreign;
    var n := Run(m, env, ops);
    var tokens := set i | 0 <= i < |ops| :: TokenOf(ops[i]);
    CoresStay(m, env, ops);
    forall c | c in m.tables ensures n.tables[c] == m.tables[c] {
      forall token | token in tokens ensures Matches(n.tables[c], token) == [] && Matches(m.tables[c], token) == [] {
        TokenGone(m, env, ops, c, token);
      }
      RunSpares(m, env, ops, tokens, c);
      NoneForeign(n.tables[c], tokens);
      NoneForeign(m.tables[c], tokens);
    }
    assert n.tables.Keys == m.tables.Keys;
  }

  lemma TokenGone(m: Multi, env: Environment, ops: seq<Operation>, c: int, token: string)
    requires WellFormed(m) && c in m.tables && Matches(m.tables[c], token) == []
    requires forall i :: 0 <= i < |ops| && (CoreOf(ops[i]), TokenOf(ops[i])) == (c, token)
                         ==> exists k: nat :: Settles(m, env, ops, k, c, token)
    ensures c in Run(m, env, ops).tables && Matches(Run(m, env, ops).tables[c], token) == []
  {
    hide Matches, Settles, TokenOf, CoreOf, Do;
    if i :| 0 <= i < |ops| && (CoreOf(ops[i]), TokenOf(ops[i])) == (c, token) {
      var k: nat :| Settles(m, env, ops, k, c, token);
      SettledIsGone(m, env, ops, k, c, token);
    } else {
      TokenStays(m, env, ops, 0, c, token);
      assert ops[..0] == [];
    }
  }
}

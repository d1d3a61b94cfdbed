/** Placing and clearing owned breakpoints in MULTI (internal/multi/breakpoint_placer.go). MULTI
    keeps one breakpoint table per core; commands are numbered, and an environment says of each
    whether it takes effect and whether it reports success, independently of each other. */
module BreakpointPlacer {

  import opened Prelude
  import opened Decimal
  import opened FrameHeader
  import opened BreakpointTable

  const MAX_INT64 := 0x7FFF_FFFF_FFFF_FFFF

  datatype Environment = Environment(
    ok: nat -> bool,                        // the command reports success, with output that can be read
    applies: nat -> bool,                   // d takes effect
    places: nat -> seq<Breakpoint>)         // what b places; nothing if it has no effect

  datatype Multi = Multi(tables: map<int, seq<Breakpoint>>, calls: nat)

  datatype Physical = Physical(
    core: int,
    requestedLine: int,
    actualLine: int,
    handle: string,
    hintToken: u32,
    possiblyCommitted: bool)

  const NO_PHYSICAL := Physical(0, 0, 0, "", 0, false)

  datatype PlacementRequest = PlacementRequest(core: int, line: int, hintToken: u32, sourceKey: string,
                                               sourceValid: bool)

  // ---------- Text ----------

  function HexDigit(d: nat): char
    requires d < 16
  {
    "0123456789ABCDEF"[d]
  }

  function Hex(n: nat, digits: nat): string {
    if digits == 0 then "" else Hex(n / 16, digits - 1) + [HexDigit(n % 16)]
  }

  /** The command that marks a breakpoint as owned. */
  function CommandToken(hint: u32): string {
    "mprintf(\"HIT 0x" + Hex(hint, 8) + "\\n\")"
  }

  /** The position of the last c, or -1. */
  function LastIndex(s: string, c: char): (i: int)
    ensures -1 <= i < |s| && (i >= 0 ==> s[i] == c)
    ensures forall j :: i < j < |s| ==> s[j] != c
  {
    if s == "" then -1 else if s[|s| - 1] == c then |s| - 1 else LastIndex(s[..|s| - 1], c)
  }

  /** The source line at the end of a location. */
  function LineNumber(location: string): Option<int> {
    var text := TrimSpace(location);
    var hash := LastIndex(text, '#');
    if hash <= 0 || '\n' in text then None
    else
      var digits := text[hash + 1..];
      if digits == "" || !AllDigits(digits) || digits[0] == '0' || Value(digits) > MAX_INT64 then None
      else Some(Value(digits))
  }

  function Pow16(k: nat): nat {
    if k == 0 then 1 else 16 * Pow16(k - 1)
  }

  lemma {:induction false} HexDistinct(a: nat, b: nat, digits: nat)
    requires a < Pow16(digits) && b < Pow16(digits)
    ensures |Hex(a, digits)| == digits
    ensures Hex(a, digits) == Hex(b, digits) ==> a == b
    decreases digits
  {
    if digits > 0 {
      HexDistinct(a / 16, b / 16, digits - 1);
      HexDistinct(b / 16, a / 16, digits - 1);
      var x, y := Hex(a, digits), Hex(b, digits);
      assert x[..digits - 1] == Hex(a / 16, digits - 1) && y[..digits - 1] == Hex(b / 16, digits - 1);
      assert x[digits - 1] == HexDigit(a % 16) && y[digits - 1] == HexDigit(b % 16);
      DigitDistinct(a % 16, b % 16);
    }
  }

  lemma DigitDistinct(d: nat, e: nat)
    requires d < 16 && e < 16
    ensures HexDigit(d) == HexDigit(e) ==> d == e
  {
  }

  /** Different hints mark different breakpoints. */
  lemma TokensDistinct(a: u32, b: u32)
    requires CommandToken(a) == CommandToken(b)
    ensures a == b
  {
    assert Pow16(4) == 0x1_0000 && Pow16(8) == 0x1_0000 * Pow16(4);
    HexDistinct(a, b, 8);
    HexDistinct(b, a, 8);
    hide Hex;
    var prefix := "mprintf(\"HIT 0x";
    assert CommandToken(a)[|prefix|..|prefix| + 8] == Hex(a, 8);
    assert CommandToken(b)[|prefix|..|prefix| + 8] == Hex(b, 8);
  }

  /** text names line n: something, a hash, and n as it is printed. */
  ghost predicate Names(text: string, n: int) {
    0 < n <= MAX_INT64 && '\n' !in text && exists place :: place != "" && text == place + "#" + Format(n)
  }

  lemma LineNumberExactly(location: string, n: int)
    ensures LineNumber(location) == Some(n) <==> Names(TrimSpace(location), n)
  {
    hide TrimSpace, Value, Format;
    var text := TrimSpace(location);
    var hash := LastIndex(text, '#');
    if LineNumber(location) == Some(n) {
      var digits := text[hash + 1..];
      CanonicalIsPrinted(digits);
      CanonicalPositive(digits);
      assert text == text[..hash] + "#" + digits;
    }
    if Names(text, n) {
      var place :| place != "" && text == place + "#" + Format(n);
      FormatRoundTrip(n);
      LastHash(place, Format(n));
      assert text[|place| + 1..] == Format(n);
    }
  }

  lemma {:induction false} LastHash(place: string, digits: string)
    requires AllDigits(digits)
    ensures LastIndex(place + "#" + digits, '#') == |place|
  {
    var text := place + "#" + digits;
    if digits == "" {
      assert text[|place|] == '#';
    } else {
      var head := digits[..|digits| - 1];
      assert text[..|text| - 1] == place + "#" + head;
      LastHash(place, head);
    }
  }

  function ParseHandle(handle: string): Option<u64> {
    ParseUint(handle)
  }

  // ---------- Commands ----------

  function Calls(m: Multi): Multi {
    m.(calls := m.calls + 1)
  }

  predicate Reports(m: Multi, env: Environment, core: int) {
    core in m.tables && env.ok(m.calls)
  }

  /** B */
  function List(m: Multi, env: Environment, core: int): (Multi, Option<seq<Breakpoint>>) {
    (Calls(m), if Reports(m, env, core) then Some(m.tables[core]) else None)
  }

  /** b location {token} */
  function Place(m: Multi, env: Environment, core: int, token: string): (Multi, bool) {
    if core !in m.tables then (Calls(m), false)
    else
      var t := m.tables[core];
      (Multi(m.tables[core := t + Added(t, env.places(m.calls), token)], m.calls + 1), env.ok(m.calls))
  }

  /** d %index */
  function Delete(m: Multi, env: Environment, core: int, index: int): (Multi, bool) {
    if core !in m.tables then (Calls(m), false)
    else if env.applies(m.calls) then
      (Multi(m.tables[core := Without(m.tables[core], index)], m.calls + 1), env.ok(m.calls))
    else (Calls(m), env.ok(m.calls))
  }

  // ---------- Clearing ----------

  predicate Current(m: Multi, core: int, listed: seq<Breakpoint>) {
    core in m.tables && m.tables[core] == listed && Unique(listed)
  }

  function DeleteExact(m: Multi, env: Environment, core: int, before: seq<Breakpoint>, index: int, token: string)
    : (Multi, Option<seq<Breakpoint>>)
  {
    var i := Position(before, index);
    if i < 0 || !HasToken(before[i], token) then (m, None)
    else
      var (m, deleted) := Delete(m, env, core, index);
      if !deleted then (m, None)
      else
        var (m, after) := List(m, env, core);
        if after.None? then (m, None)
        else
          var j := Position(after.value, index);
          if j >= 0 && HasToken(after.value[j], token) then (m, None) else (m, after)
  }

  /** What is not ours stays, and a deletion that succeeds takes one match away. */
  lemma DeleteExactOwned(m: Multi, env: Environment, core: int, before: seq<Breakpoint>, index: int, token: string)
    requires Current(m, core, before)
    ensures var (n, after) := DeleteExact(m, env, core, before, index, token);
            && Spares(m, n, core, token)
            && (after.Some? ==>
                  Current(n, core, after.value) && |Matches(after.value, token)| < |Matches(before, token)|)
  {
    hide Others, Matches, Without;
    var i := Position(before, index);
    if i >= 0 && HasToken(before[i], token) {
      RemoveOwned(before, i, token);
      RemovedIsGone(before, i);
    }
  }

  /** n is m but for entries of core with the token, and for the number of commands. */
  ghost predicate Spares(m: Multi, n: Multi, core: int, token: string) {
    && n.tables.Keys == m.tables.Keys && n.calls >= m.calls
    && (forall c :: c in m.tables && c != core ==> n.tables[c] == m.tables[c])
    && (core in m.tables && Unique(m.tables[core]) ==>
          Unique(n.tables[core]) && Others(n.tables[core], token) == Others(m.tables[core], token))
  }

  lemma SparesOn(m: Multi, n: Multi, k: Multi, core: int, token: string)
    requires Spares(m, n, core, token) && Spares(n, k, core, token)
    ensures Spares(m, k, core, token)
  {
    hide Others, Unique;
  }

  /** Every exact occurrence of the token is deleted, the first one first. The number of
      matches falls with every deletion. */
  function ClearExactToken(m: Multi, env: Environment, core: int, listed: seq<Breakpoint>,
                           token: string): (r: (Multi, bool))
    requires Current(m, core, listed)
    ensures Spares(m, r.0, core, token)
    ensures r.1 ==> Matches(r.0.tables[core], token) == []
    decreases |Matches(listed, token)|
  {
    hide Others, Without, Added, HasIndex, DeleteExact;
    var matches := Matches(listed, token);
    if matches == [] then (m, true)
    else
      DeleteExactOwned(m, env, core, listed, matches[0].index, token);
      var (n, after) := DeleteExact(m, env, core, listed, matches[0].index, token);
      if after.None? then (n, false)
      else
        var r := ClearExactToken(n, env, core, after.value, token);
        SparesOn(m, n, r.0, core, token);
        r
  }

  predicate WellFormed(m: Multi) {
    forall c :: c in m.tables ==> Unique(m.tables[c])
  }

  function Clear(m: Multi, env: Environment, p: Physical): (Multi, bool)
    requires WellFormed(m)
  {
    var (n, listed) := List(m, env, p.core);
    var token := CommandToken(p.hintToken);
    if listed.None? || p.hintToken == 0 then (n, false)
    else if p.handle == "" then ClearExactToken(n, env, p.core, listed.value, token)
    else
      var index := ParseHandle(p.handle);
      if index.None? then (n, false)
      else
        var i := Position(listed.value, index.value);
        if i < 0 then ClearExactToken(n, env, p.core, listed.value, token)
        else if !HasToken(listed.value[i], token) then (n, false)
        else
          DeleteExactOwned(n, env, p.core, listed.value, index.value, token);
          var (k, after) := DeleteExact(n, env, p.core, listed.value, index.value, token);
          if after.None? then (k, false)
          else if Matches(after.value, token) != [] then ClearExactToken(k, env, p.core, after.value, token)
          else (k, true)
  }

  /** On every path, whatever commands fail before or after taking effect: entries without the
      token and other cores stay; and success means that no entry with the token is left. */
  lemma ClearOwned(m: Multi, env: Environment, p: Physical)
    requires WellFormed(m)
    ensures var (n, ok) := Clear(m, env, p);
            && Spares(m, n, p.core, CommandToken(p.hintToken)) && WellFormed(n)
            && (ok ==> p.core in n.tables && Matches(n.tables[p.core], CommandToken(p.hintToken)) == [])
  {
    hide Others, Matches, Without, DeleteExact, CommandToken, HasToken, ClearExactToken;
    var token := CommandToken(p.hintToken);
    var (n, listed) := List(m, env, p.core);
    assert Spares(m, n, p.core, token);
    if listed.Some? {
      var r := ClearExactToken(n, env, p.core, listed.value, token);
      SparesOn(m, n, r.0, p.core, token);
      if ParseHandle(p.handle).Some? {
        var index := ParseHandle(p.handle).value;
        DeleteExactOwned(n, env, p.core, listed.value, index, token);
        var (k, after) := DeleteExact(n, env, p.core, listed.value, index, token);
        SparesOn(m, n, k, p.core, token);
        if after.Some? {
          SparesOn(m, k, ClearExactToken(k, env, p.core, after.value, token).0, p.core, token);
        }
      }
    }
  }

  // ---------- Placing ----------

  /** The listed entries with the token whose index was not listed before. */
  function NewMatches(before: seq<Breakpoint>, after: seq<Breakpoint>, token: string): seq<Breakpoint> {
    if after == [] then []
    else
      var last := after[|after| - 1];
      NewMatches(before, after[..|after| - 1], token)
      + if !HasIndex(before, last.index) && HasToken(last, token) then [last] else []
  }

  function NewlyPlaced(before: seq<Breakpoint>, after: seq<Breakpoint>, token: string): Option<Breakpoint> {
    var matches := NewMatches(before, after, token);
    if |matches| == 1 then Some(matches[0]) else None
  }

  predicate ValidPlacement(r: PlacementRequest) {
    r.line > 0 && r.hintToken != 0 && r.sourceValid
  }

  /** The recovery intent once b was accepted. */
  function Intent(r: PlacementRequest): Physical {
    Physical(r.core, r.line, 0, "", r.hintToken, true)
  }

  datatype SetResult = SetResult(multi: Multi, physical: Physical, ok: bool)

  /** After b was accepted: what was placed is read back. */
  function Confirm(m: Multi, env: Environment, r: PlacementRequest, before: seq<Breakpoint>): SetResult {
    var (n, after) := List(m, env, r.core);
    var intent := Intent(r);
    if after.None? then SetResult(n, intent, false)
    else
      var placed := NewlyPlaced(before, after.value, CommandToken(r.hintToken));
      if placed.None? then SetResult(n, intent, false)
      else
        var known := intent.(handle := Format(placed.value.index));
        var line := LineNumber(placed.value.location);
        if line.None? then SetResult(n, known, false)
        else SetResult(n, Physical(r.core, r.line, line.value, known.handle, r.hintToken, false), true)
  }

  function Set(m: Multi, env: Environment, r: PlacementRequest): SetResult {
    if !ValidPlacement(r) then SetResult(m, NO_PHYSICAL, false)
    else
      var (n, before) := List(m, env, r.core);
      var token := CommandToken(r.hintToken);
      if before.None? || Matches(before.value, token) != [] then SetResult(n, NO_PHYSICAL, false)
      else
        var (k, placed) := Place(n, env, r.core, token);
        if !placed then SetResult(k, NO_PHYSICAL, false) else Confirm(k, env, r, before.value)
  }

  // ---------- What Set promises ----------

  /** b was sent: the request is valid, the table was read and does not hold the token. */
  predicate Sends(m: Multi, env: Environment, r: PlacementRequest) {
    ValidPlacement(r) && Reports(m, env, r.core) && Matches(m.tables[r.core], CommandToken(r.hintToken)) == []
  }

  /** What b places, if it is sent. */
  function Placed(m: Multi, env: Environment, r: PlacementRequest): seq<Breakpoint>
    requires r.core in m.tables
  {
    Added(m.tables[r.core], env.places(m.calls + 1), CommandToken(r.hintToken))
  }

  predicate Accepted(m: Multi, env: Environment, r: PlacementRequest) {
    Sends(m, env, r) && env.ok(m.calls + 1)
  }

  lemma {:induction false} NewAreAdded(before: seq<Breakpoint>, added: seq<Breakpoint>, token: string)
    requires forall i :: 0 <= i < |added| ==> HasToken(added[i], token) && !HasIndex(before, added[i].index)
    ensures NewMatches(before, before + added, token) == added
  {
    hide HasToken;
    if added == [] {
      assert before + added == before;
      NoneNew(before, before, token);
    } else {
      var front := added[..|added| - 1];
      assert (before + added)[..|before + added| - 1] == before + front;
      NewAreAdded(before, front, token);
    }
  }

  lemma {:induction false} NoneNew(before: seq<Breakpoint>, part: seq<Breakpoint>, token: string)
    requires forall i :: 0 <= i < |part| ==> HasIndex(before, part[i].index)
    ensures NewMatches(before, part, token) == []
  {
    if part != [] { NoneNew(before, part[..|part| - 1], token); }
  }

  /** Where the tables go. */
  lemma SetTables(m: Multi, env: Environment, r: PlacementRequest)
    ensures var s := Set(m, env, r);
            s.multi.tables
            == if Sends(m, env, r) then m.tables[r.core := m.tables[r.core] + Placed(m, env, r)] else m.tables
    ensures var s := Set(m, env, r); s.physical != NO_PHYSICAL <==> Accepted(m, env, r)
    ensures var s := Set(m, env, r);
            Accepted(m, env, r) ==> s.physical.core == r.core && s.physical.hintToken == r.hintToken
  {
    hide Matches, Added, CommandToken, NewlyPlaced, LineNumber, Format;
  }

  /** Success means one new entry, and the answer describes exactly that one. */
  lemma SetSucceeds(m: Multi, env: Environment, r: PlacementRequest)
    requires Set(m, env, r).ok
    ensures var s := Set(m, env, r);
            && Sends(m, env, r) && |Placed(m, env, r)| == 1
            && var b := Placed(m, env, r)[0];
            LineNumber(b.location).Some?
            && s.physical == Physical(r.core, r.line, LineNumber(b.location).value, Format(b.index), r.hintToken, false)
  {
    hide Matches, Added, CommandToken, LineNumber, Format;
    NewAreAdded(m.tables[r.core], Placed(m, env, r), CommandToken(r.hintToken));
    hide NewMatches;
  }

  /** What Set returns, in every case: success exactly if b was accepted, the listing after it shows
      one new entry with the token, and its location names a line; the line and the index read back
      go into what is returned as far as they are known. */
  lemma SetExactly(m: Multi, env: Environment, r: PlacementRequest)
    ensures var s := Set(m, env, r);
            && (s.ok <==> && Accepted(m, env, r) && env.ok(m.calls + 2) && |Placed(m, env, r)| == 1
                          && LineNumber(Placed(m, env, r)[0].location).Some?)
            && (Accepted(m, env, r) ==>
                  var found := env.ok(m.calls + 2) && |Placed(m, env, r)| == 1;
                  && s.physical.requestedLine == r.line && s.physical.possiblyCommitted == !s.ok
                  && s.physical.handle == (if found then Format(Placed(m, env, r)[0].index) else "")
                  && s.physical.actualLine == (if s.ok then LineNumber(Placed(m, env, r)[0].location).value else 0))
  {
    hide Matches, Added, CommandToken, LineNumber, Format;
    if r.core in m.tables {
      NewAreAdded(m.tables[r.core], Placed(m, env, r), CommandToken(r.hintToken));
    }
    hide NewMatches;
  }

  /** Set never touches what is not ours. */
  lemma SetOwned(m: Multi, env: Environment, r: PlacementRequest)
    requires WellFormed(m)
    ensures var s := Set(m, env, r); Spares(m, s.multi, r.core, CommandToken(r.hintToken)) && WellFormed(s.multi)
  {
    hide Set, Matches, Others, CommandToken, Added, HasToken, Placed, Sends;
    SetTables(m, env, r);
    SetCalls(m, env, r);
    if Sends(m, env, r) {
      var token := CommandToken(r.hintToken);
      SentTo(m, env, r);
      var a := Placed(m, env, r);
      AllMatch(a, token);
      SplitMatches(m.tables[r.core], a, token);
    }
  }

  lemma SentTo(m: Multi, env: Environment, r: PlacementRequest)
    requires Sends(m, env, r) && WellFormed(m)
    ensures r.core in m.tables && Matches(m.tables[r.core], CommandToken(r.hintToken)) == []
    ensures Unique(m.tables[r.core] + Placed(m, env, r))
    ensures forall i :: 0 <= i < |Placed(m, env, r)| ==> HasToken(Placed(m, env, r)[i], CommandToken(r.hintToken))
  {
    AddedKeepsUnique(m.tables[r.core], env.places(m.calls + 1), CommandToken(r.hintToken));
    hide Added, Matches, CommandToken;
  }

  lemma SetCalls(m: Multi, env: Environment, r: PlacementRequest)
    ensures Set(m, env, r).multi.calls >= m.calls
  {
    hide Matches, Added, CommandToken, NewlyPlaced, LineNumber, Format;
  }

  /** Exact undo: once b was accepted, whether Set succeeded or returned an intent, a Clear of
      what it returned that succeeds, now or after any number of clears that failed, restores
      the table of the core as it was before Set. */
  lemma ClearRestores(m: Multi, env: Environment, r: PlacementRequest, later: Multi)
    requires WellFormed(m) && WellFormed(later) && Accepted(m, env, r)
    requires Spares(Set(m, env, r).multi, later, r.core, CommandToken(r.hintToken))
    ensures var (n, ok) := Clear(later, env, Set(m, env, r).physical);
            ok ==> n.tables == m.tables
  {
    hide Set, Clear, Matches, Others, CommandToken, Placed;
    var token := CommandToken(r.hintToken);
    SetOwned(m, env, r);
    SetTables(m, env, r);
    SentTo(m, env, r);
    var p := Set(m, env, r).physical;
    var (n, ok) := Clear(later, env, p);
    ClearOwned(later, env, p);
    SparesOn(m, Set(m, env, r).multi, later, r.core, token);
    SparesOn(m, later, n, r.core, token);
    if ok {
      OnlyOursGone(m.tables[r.core], n.tables[r.core], token);
      assert n.tables.Keys == m.tables.Keys;
      assert forall c :: c in m.tables ==> n.tables[c] == m.tables[c];
      assert n.tables == m.tables;
    }
  }

  // ---------- Where a trace of Set remains ----------

  /** b takes effect and yet reports failure. */
  predicate Leaks(m: Multi, env: Environment, r: PlacementRequest) {
    Sends(m, env, r) && !env.ok(m.calls + 1) && Placed(m, env, r) != []
  }

  /** A Set that returns nothing to clear leaves the tables as they were exactly unless b takes
      effect and reports failure. */
  lemma NothingReturned(m: Multi, env: Environment, r: PlacementRequest)
    requires Set(m, env, r).physical == NO_PHYSICAL
    ensures Set(m, env, r).multi.tables == m.tables <==> !Leaks(m, env, r)
  {
    hide Set, Matches, CommandToken, Added;
    SetTables(m, env, r);
    if Sends(m, env, r) {
      var t, a := m.tables[r.core], Placed(m, env, r);
      if a == [] {
        assert t + a == t;
      } else {
        assert |m.tables[r.core := t + a][r.core]| > |t|;
      }
    }
  }

  /** The case occurs: the entry stays, with the token, and no intent is returned. */
  lemma LeakExample(core: int, b: Breakpoint, hint: u32) returns (env: Environment)
    requires hint != 0
    ensures var m := Multi(map[core := []], 0);
            var s := Set(m, env, PlacementRequest(core, 1, hint, "", true));
            && s.physical == NO_PHYSICAL && !s.ok
            && s.multi.tables == map[core := [b.(command := Some(CommandToken(hint)))]]
  {
    env := Environment(n => n == 0, _ => true, _ => [b]);
    hide CommandToken, LineNumber, Format, Set;
    var m, r := Multi(map[core := []], 0), PlacementRequest(core, 1, hint, "", true);
    AddedOne(b, CommandToken(hint));
    assert Sends(m, env, r) && env.places(1) == [b];
    SetTables(m, env, r);
    SetFails(m, env, r);
    hide Added;
    assert m.tables[core := [] + Placed(m, env, r)] == map[core := Placed(m, env, r)];
  }

  lemma AddedOne(b: Breakpoint, token: string)
    ensures Added([], [b], token) == [b.(command := Some(token))]
  {
    assert [b][..0] == [] && Added([], [], token) == [];
  }

  lemma SetFails(m: Multi, env: Environment, r: PlacementRequest)
    requires !Accepted(m, env, r)
    ensures !Set(m, env, r).ok
  {
    hide Matches, Added, CommandToken, NewlyPlaced, LineNumber, Format;
  }
}

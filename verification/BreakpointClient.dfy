/** The breakpoint placer at work (internal/multi/breakpoint_placer.go): it sends commands that
    change MULTI's tables, and remembers the sources it has placed breakpoints in. */
module BreakpointClient {

  import opened Prelude
  import opened Decimal
  import opened BreakpointTable
  import BreakpointPlacer
  type Multi = BreakpointPlacer.Multi
  type Physical = BreakpointPlacer.Physical
  type PlacementRequest = BreakpointPlacer.PlacementRequest
  type Environment = BreakpointPlacer.Environment

  method BreakpointsWithToken(values: seq<Breakpoint>, token: string) returns (matches: seq<Breakpoint>)
    ensures matches == Matches(values, token)
  {
    matches := [];
    for i := 0 to |values|
      invariant matches == Matches(values[..i], token)
    {
      assert values[..i + 1][..i] == values[..i];
      if HasToken(values[i], token) { matches := matches + [values[i]]; }
    }
    assert values[..|values|] == values;
  }

  method ContainsCommandToken(values: seq<Breakpoint>, token: string) returns (found: bool)
    ensures found <==> Matches(values, token) != []
  {
    for i := 0 to |values|
      invariant Matches(values[..i], token) == []
    {
      assert values[..i + 1][..i] == values[..i];
      if HasToken(values[i], token) {
        assert values[..i + 1] + values[i + 1..] == values;
        SplitMatches(values[..i + 1], values[i + 1..], token);
        return true;
      }
    }
    assert values[..|values|] == values;
    return false;
  }

  method BreakpointByIndex(values: seq<Breakpoint>, index: int) returns (position: int)
    requires Unique(values)
    ensures position == Position(values, index)
  {
    for i := 0 to |values|
      invariant forall j :: 0 <= j < i ==> values[j].index != index
    {
      if values[i].index == index { return i; }
    }
    return -1;
  }

  method NewlyPlaced(before: seq<Breakpoint>, after: seq<Breakpoint>, token: string)
    returns (placed: Option<Breakpoint>)
    ensures placed == BreakpointPlacer.NewlyPlaced(before, after, token)
  {
    var indexes: set<int> := {};
    for i := 0 to |before|
      invariant forall x :: x in indexes <==> exists j :: 0 <= j < i && before[j].index == x
    {
      indexes := indexes + {before[i].index};
    }
    var matches: seq<Breakpoint> := [];
    for i := 0 to |after|
      invariant matches == BreakpointPlacer.NewMatches(before, after[..i], token)
    {
      assert after[..i + 1][..i] == after[..i];
      assert after[i].index in indexes <==> HasIndex(before, after[i].index);
      if after[i].index !in indexes && HasToken(after[i], token) { matches := matches + [after[i]]; }
    }
    assert after[..|after|] == after;
    return if |matches| == 1 then Some(matches[0]) else None;
  }

  class Placer {
    const env: Environment
    var multi: Multi
    var known: map<int, set<string>>

    constructor (env: Environment, multi: Multi)
      ensures this.env == env && this.multi == multi && known == map[]
    {
      this.env := env;
      this.multi := multi;
      known := map[];
    }

    method List(core: int) returns (values: Option<seq<Breakpoint>>)
      modifies this`multi
      ensures (multi, values) == BreakpointPlacer.List(old(multi), env, core)
    {
      var n := multi.calls;
      multi := multi.(calls := n + 1);
      return if core in multi.tables && env.ok(n) then Some(multi.tables[core]) else None;
    }

    method SendPlace(core: int, token: string) returns (ok: bool)
      modifies this`multi
      ensures (multi, ok) == BreakpointPlacer.Place(old(multi), env, core, token)
    {
      hide Added;
      var n := multi.calls;
      if core !in multi.tables {
        multi := multi.(calls := n + 1);
        return false;
      }
      var t := multi.tables[core];
      multi := BreakpointPlacer.Multi(multi.tables[core := t + Added(t, env.places(n), token)], n + 1);
      return env.ok(n);
    }

    method SendDelete(core: int, index: int) returns (ok: bool)
      modifies this`multi
      ensures (multi, ok) == BreakpointPlacer.Delete(old(multi), env, core, index)
    {
      hide Without;
      var n := multi.calls;
      if core in multi.tables && env.applies(n) {
        multi := multi.(tables := multi.tables[core := Without(multi.tables[core], index)]);
      }
      multi := multi.(calls := n + 1);
      return core in multi.tables && env.ok(n);
    }

    method DeleteExact(core: int, before: seq<Breakpoint>, index: int, token: string)
      returns (after: Option<seq<Breakpoint>>)
      requires BreakpointPlacer.Current(multi, core, before)
      modifies this`multi
      ensures (multi, after) == BreakpointPlacer.DeleteExact(old(multi), env, core, before, index, token)
    {
      hide Without, Position, HasToken, BreakpointPlacer.Delete;
      var i := BreakpointByIndex(before, index);
      if i < 0 || !HasToken(before[i], token) { return None; }
      DeleteKeepsUnique(multi, env, core, before, index, token);
      var deleted := SendDelete(core, index);
      if !deleted { return None; }
      var listed := List(core);
      if listed.None? { return None; }
      var j := BreakpointByIndex(listed.value, index);
      if j >= 0 && HasToken(listed.value[j], token) { return None; }
      return listed;
    }

    method ClearExactToken(core: int, current: seq<Breakpoint>, token: string) returns (ok: bool)
      requires BreakpointPlacer.Current(multi, core, current)
      modifies this`multi
      ensures (multi, ok) == BreakpointPlacer.ClearExactToken(old(multi), env, core, current, token)
    {
      hide BreakpointPlacer.DeleteExact, Matches, HasToken;
      var listed := current;
      while true
        invariant BreakpointPlacer.Current(multi, core, listed)
        invariant BreakpointPlacer.ClearExactToken(old(multi), env, core, current, token)
               == BreakpointPlacer.ClearExactToken(multi, env, core, listed, token)
        decreases |Matches(listed, token)|
      {
        var matches := BreakpointsWithToken(listed, token);
        if matches == [] { return true; }
        BreakpointPlacer.DeleteExactOwned(multi, env, core, listed, matches[0].index, token);
        var after := DeleteExact(core, listed, matches[0].index, token);
        if after.None? { return false; }
        listed := after.value;
      }
    }

    method Clear(p: Physical) returns (ok: bool)
      requires BreakpointPlacer.WellFormed(multi)
      modifies this`multi
      ensures (multi, ok) == BreakpointPlacer.Clear(old(multi), env, p)
    {
      hide BreakpointPlacer.DeleteExact, BreakpointPlacer.ClearExactToken;
      hide Matches, HasToken, Position, BreakpointPlacer.CommandToken;
      var before := List(p.core);
      if before.None? || p.hintToken == 0 { return false; }
      var token := BreakpointPlacer.CommandToken(p.hintToken);
      if p.handle == "" {
        ok := ClearExactToken(p.core, before.value, token);
        return;
      }
      var index := BreakpointPlacer.ParseHandle(p.handle);
      if index.None? { return false; }
      var i := BreakpointByIndex(before.value, index.value);
      if i < 0 {
        ok := ClearExactToken(p.core, before.value, token);
        return;
      }
      if !HasToken(before.value[i], token) { return false; }
      BreakpointPlacer.DeleteExactOwned(multi, env, p.core, before.value, index.value, token);
      var after := DeleteExact(p.core, before.value, index.value, token);
      if after.None? { return false; }
      var remains := ContainsCommandToken(after.value, token);
      if remains {
        ok := ClearExactToken(p.core, after.value, token);
        return;
      }
      return true;
    }

    method Set(r: PlacementRequest) returns (p: Physical, ok: bool)
      modifies this`multi, this`known
      ensures BreakpointPlacer.SetResult(multi, p, ok) == BreakpointPlacer.Set(old(multi), env, r)
      ensures known == if ok then Remembered(old(known), r.core, r.sourceKey) else old(known)
    {
      hide Added, Matches, BreakpointPlacer.CommandToken, BreakpointPlacer.NewlyPlaced;
      hide BreakpointPlacer.LineNumber, Format;
      if !BreakpointPlacer.ValidPlacement(r) { return BreakpointPlacer.NO_PHYSICAL, false; }
      var before := List(r.core);
      if before.None? { return BreakpointPlacer.NO_PHYSICAL, false; }
      var token := BreakpointPlacer.CommandToken(r.hintToken);
      var present := ContainsCommandToken(before.value, token);
      if present { return BreakpointPlacer.NO_PHYSICAL, false; }
      var sent := SendPlace(r.core, token);
      if !sent { return BreakpointPlacer.NO_PHYSICAL, false; }
      var intent := BreakpointPlacer.Physical(r.core, r.line, 0, "", r.hintToken, true);
      var after := List(r.core);
      if after.None? { return intent, false; }
      var placed := NewlyPlaced(before.value, after.value, token);
      if placed.None? { return intent, false; }
      intent := intent.(handle := Format(placed.value.index));
      var line := BreakpointPlacer.LineNumber(placed.value.location);
      if line.None? { return intent, false; }
      known := Remembered(known, r.core, r.sourceKey);
      return BreakpointPlacer.Physical(r.core, r.line, line.value, intent.handle, r.hintToken, false), true;
    }

    /** Set and Clear together: if b was accepted and the clear succeeds, nothing has changed. */
    method SetThenClear(r: PlacementRequest) returns (p: Physical, cleared: bool)
      requires BreakpointPlacer.WellFormed(multi)
      modifies this`multi, this`known
      ensures p != BreakpointPlacer.NO_PHYSICAL && cleared ==> multi.tables == old(multi).tables
    {
      hide BreakpointPlacer.Set, BreakpointPlacer.Clear, BreakpointPlacer.Accepted, BreakpointPlacer.Spares;
      ghost var before := multi;
      BreakpointPlacer.SetOwned(before, env, r);
      BreakpointPlacer.SetTables(before, env, r);
      var ok;
      p, ok := Set(r);
      cleared := false;
      if p != BreakpointPlacer.NO_PHYSICAL {
        SparesItself(multi, r.core, BreakpointPlacer.CommandToken(r.hintToken));
        BreakpointPlacer.ClearRestores(before, env, r, multi);
        cleared := Clear(p);
      }
    }
  }

  function Remembered(known: map<int, set<string>>, core: int, key: string): (k: map<int, set<string>>)
    ensures core in k && key in k[core]
    ensures forall c, s :: c in known && s in known[c] ==> c in k && s in k[c]
    ensures forall c, s :: c in k && s in k[c] ==> (c in known && s in known[c]) || (c == core && s == key)
  {
    known[core := (if core in known then known[core] else {}) + {key}]
  }

  lemma SparesItself(m: Multi, core: int, token: string)
    ensures BreakpointPlacer.Spares(m, m, core, token)
  {
  }

  lemma DeleteKeepsUnique(m: Multi, env: Environment, core: int, before: seq<Breakpoint>, index: int, token: string)
    requires BreakpointPlacer.Current(m, core, before)
    requires Position(before, index) >= 0
    ensures var (n, _) := BreakpointPlacer.Delete(m, env, core, index); core in n.tables && Unique(n.tables[core])
  {
    hide Without;
    RemovedIsGone(before, Position(before, index));
  }
}

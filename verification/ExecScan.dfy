/** ExecScan (src/backend/executor/execScan.c): fetch tuples until one qualifies, project it, and
    come back to the same tuple as long as its target list has more values to give. */
module ExecScan {
  import opened Strip

  /** What the target list gives for a tuple: one value, said to be the last with it; or a set, one
      value a call, and a call of its own to say that there are no more
      (src/backend/executor/execQual.c, lines 1303-1326). */
  datatype Target<R> = Single(value: R) | Many(values: seq<R>)

  function Values<R>(t: Target<R>): seq<R> {
    match t
    case Single(v) => [v]
    case Many(vs) => vs
  }

  predicate Qualifies<T>(qual: Option<T -> bool>, t: T) { qual.None? || qual.value(t) }

  /** The reference: filter, then project and flatten. */
  function Flat<T, R>(ts: seq<T>, qual: Option<T -> bool>, target: T -> Target<R>): seq<R> {
    if ts == [] then []
    else (if Qualifies(qual, ts[0]) then Values(target(ts[0])) else []) + Flat(ts[1..], qual, target)
  }

  /** The same, cut off before a qualifying tuple that has no value at all. */
  function UpToEmpty<T, R>(ts: seq<T>, qual: Option<T -> bool>, target: T -> Target<R>): seq<R> {
    if ts == [] then []
    else if !Qualifies(qual, ts[0]) then UpToEmpty(ts[1..], qual, target)
    else if Values(target(ts[0])) == [] then []
    else Values(target(ts[0])) + UpToEmpty(ts[1..], qual, target)
  }

  lemma {:induction false} TakeFirst<R>(u: seq<R>, v: seq<R>)
    requires u != []
    ensures (u + v)[0] == u[0] && (u + v)[1..] == u[1..] + v
  {
  }

  class ScanState<T(==), R(==)> {
    const tuples: seq<T>              // what the access method returns, in order
    const qual: Option<T -> bool>
    const target: T -> Target<R>
    var cursor: nat
    var scanTuple: Option<T>          // ecxt_scantuple
    var tupFromTlist: bool            // cs_TupFromTlist
    var given: nat                    // how many values of a set have been given

    constructor (tuples: seq<T>, qual: Option<T -> bool>, target: T -> Target<R>)
      ensures Valid() && Rest() == UpToEmpty(tuples, qual, target)
      ensures this.tuples == tuples && this.qual == qual && this.target == target
    {
      this.tuples, this.qual, this.target := tuples, qual, target;
      cursor, scanTuple, tupFromTlist, given := 0, None, false, 0;
    }

    ghost predicate Valid()
      reads this
    {
      cursor <= |tuples|
      && (if tupFromTlist then scanTuple.Some? && target(scanTuple.value).Many?
        && given <= |target(scanTuple.value).values|
          else given == 0)
    }

    /** What is still to come: the values left of the current tuple, and those of the tuples ahead. */
    ghost function Rest(): seq<R>
      reads this
      requires Valid()
    {
      (if tupFromTlist then target(scanTuple.value).values[given..] else [])
      + UpToEmpty(tuples[cursor..], qual, target)
    }

    /** The access method. */
    method Fetch() returns (slot: Option<T>)
      requires cursor <= |tuples|
      modifies this`cursor
      ensures old(cursor) == |tuples| ==> slot == None && cursor == old(cursor)
      ensures old(cursor) < |tuples| ==> slot == Some(tuples[old(cursor)]) && cursor == old(cursor) + 1
    {
      if cursor == |tuples| {
        return None;
      }
      slot := Some(tuples[cursor]);
      cursor := cursor + 1;
    }

    /** ExecProject of the current tuple. */
    method Project() returns (slot: Option<R>, isDone: bool)
      requires scanTuple.Some? && (target(scanTuple.value).Many? ==> given <= |Values(target(scanTuple.value))|)
      modifies this`given
      ensures var t := target(scanTuple.value);
              if t.Single? then slot == Some(t.value) && isDone && given == old(given)
              else if old(given) == |t.values| then slot == None && isDone && given == 0
              else slot == Some(t.values[old(given)]) && !isDone && given == old(given) + 1
    {
      var t := target(scanTuple.value);
      if t.Single? {
        return Some(t.value), true;
      }
      if given == |t.values| {
        given := 0;
        return None, true;
      }
      given := given + 1;
      return Some(t.values[given - 1]), false;
    }

    /** The loop: the next tuple that qualifies goes into the expression context. */
    method NextTuple() returns (found: bool)
      requires cursor <= |tuples|
      modifies this`cursor, this`scanTuple
      ensures cursor <= |tuples|
      ensures !found ==> UpToEmpty(old(tuples[cursor..]), qual, target) == []
      ensures found ==> scanTuple.Some? && old(cursor) < cursor && scanTuple.value == tuples[cursor - 1]
      ensures found ==> qual.None? || qual.value(scanTuple.value)
      ensures forall i :: old(cursor) <= i < (if found then cursor - 1 else cursor) ==>
                qual.Some? && !qual.value(tuples[i])
      ensures !found ==> cursor == |tuples|
      ensures found ==>
        var v, ahead := Values(target(scanTuple.value)), UpToEmpty(tuples[cursor..], qual, target);
        UpToEmpty(old(tuples[cursor..]), qual, target) == if v == [] then [] else v + ahead
    {
      while true
        invariant old(cursor) <= cursor <= |tuples|
        invariant forall i :: old(cursor) <= i < cursor ==> qual.Some? && !qual.value(tuples[i])
        invariant UpToEmpty(tuples[cursor..], qual, target) == UpToEmpty(old(tuples[cursor..]), qual, target)
        decreases |tuples| - cursor
      {
        ghost var c := cursor;
        var tuple := Fetch();
        if tuple == None {
          return false;
        }
        assert tuples[c..][1..] == tuples[cursor..];
        scanTuple := tuple;
        if qual.None? || qual.value(tuple.value) {
          return true;
        }
      }
    }

    /** The next value, or an empty slot. */
    method Next() returns (slot: Option<R>)
      requires Valid()
      modifies this
      ensures if old(Rest()) == [] then slot == None
              else slot == Some(old(Rest())[0]) && Valid() && Rest() == old(Rest())[1..]
    {
      hide UpToEmpty;
      ghost var ahead := UpToEmpty(tuples[cursor..], qual, target);
      var isDone;
      if tupFromTlist {
        ghost var left := target(scanTuple.value).values[given..];
        slot, isDone := Project();
        if !isDone {
          TakeFirst(left, ahead);
          assert target(scanTuple.value).values[given..] == left[1..];
          return;
        }
        assert left == [];
      }
      var found := NextTuple();
      if !found {
        return None;
      }
      ghost var values := Values(target(scanTuple.value));
      slot, isDone := Project();
      tupFromTlist := !isDone;
      if values != [] {
        TakeFirst(values, UpToEmpty(tuples[cursor..], qual, target));
      }
    }

    /** Calling until the first empty slot (src/backend/executor/execMain.c, ExecutePlan). */
    method All() returns (out: seq<R>)
      requires Valid()
      modifies this
      ensures out == old(Rest())
    {
      out := [];
      while true
        invariant Valid() && out + Rest() == old(Rest())
        decreases |Rest()|
      {
        ghost var rest := Rest();
        var slot := Next();
        if slot == None {
          return;
        }
        assert rest == [rest[0]] + rest[1..];
        out := out + [slot.value];
      }
    }
  }

  // ----- what the reference says -----

  /** Where from `from` on the tuples stand that qualify, in order. */
  predicate IsWhere<T>(ts: seq<T>, qual: Option<T -> bool>, from: nat, at: seq<nat>) {
    (forall k :: 0 <= k < |at| ==> from <= at[k] < |ts| && (qual.None? || qual.value(ts[at[k]])))
    && (forall k, l :: 0 <= k < l < |at| ==> at[k] < at[l])
    && forall i :: from <= i < |ts| && (qual.None? || qual.value(ts[i])) ==> i in at
  }

  /** The values of these tuples, one tuple after another. */
  function ValuesAt<T, R>(ts: seq<T>, target: T -> Target<R>, at: seq<nat>): seq<R>
    requires forall k :: 0 <= k < |at| ==> at[k] < |ts|
  {
    if at == [] then []
    else
      (match target(ts[at[0]]) case Single(v) => [v] case Many(vs) => vs) + ValuesAt(ts, target, at[1..])
  }

  /** The reference gives the values of those tuples for which the qualification holds, all of them and in
      their order. */
  lemma {:induction false} FlatIsOfQualifying<T, R>(ts: seq<T>, qual: Option<T -> bool>, target: T -> Target<R>,
        from: nat) returns (at: seq<nat>)
    requires from <= |ts|
    ensures IsWhere(ts, qual, from, at) && Flat(ts[from..], qual, target) == ValuesAt(ts, target, at)
    decreases |ts| - from
  {
    at := [];
    if from < |ts| {
      at := FlatIsOfQualifying(ts, qual, target, from + 1);
      assert ts[from..][1..] == ts[from + 1..];
      Preceded(ts, qual, from, at);
      hide IsWhere;
      if qual.None? || qual.value(ts[from]) {
        OneMore(ts, target, from, at);
        at := [from] + at;
      }
    }
  }

  lemma {:induction false} OneMore<T, R>(ts: seq<T>, target: T -> Target<R>, from: nat, rest: seq<nat>)
    requires from < |ts| && forall k :: 0 <= k < |rest| ==> rest[k] < |ts|
    ensures ValuesAt(ts, target, [from] + rest) == Values(target(ts[from])) + ValuesAt(ts, target, rest)
  {
    assert ([from] + rest)[1..] == rest;
  }

  lemma {:induction false} Preceded<T>(ts: seq<T>, qual: Option<T -> bool>, from: nat, rest: seq<nat>)
    requires from < |ts| && IsWhere(ts, qual, from + 1, rest)
    ensures forall k :: 0 <= k < |rest| ==> rest[k] < |ts|
    ensures IsWhere(ts, qual, from, if qual.None? || qual.value(ts[from]) then [from] + rest else rest)
  {
  }

  // ----- when that is everything -----

  /** Nothing comes after a qualifying tuple without values. */
  predicate NothingCutOff<T, R>(ts: seq<T>, qual: Option<T -> bool>, target: T -> Target<R>) {
    forall i, j :: 0 <= i < j < |ts| && Qualifies(qual, ts[i]) && Values(target(ts[i])) == [] && Qualifies(qual, ts[j])
      ==> Values(target(ts[j])) == []
  }

  /** The scan gives exactly the projections of the qualifying tuples, in order, just when no
      qualifying tuple with an empty set stands before one that has a value: an empty set makes
      an empty slot, which ends the scan. */
  lemma {:induction false} CompleteIff<T, R>(ts: seq<T>, qual: Option<T -> bool>, target: T -> Target<R>)
    ensures UpToEmpty(ts, qual, target) == Flat(ts, qual, target) <==> NothingCutOff(ts, qual, target)
  {
    if ts != [] {
      CompleteIff(ts[1..], qual, target);
      var v := Values(target(ts[0]));
      if Qualifies(qual, ts[0]) && v == [] {
        FlatEmpty(ts[1..], qual, target);
        assert forall j :: 0 < j < |ts| ==> ts[j] == ts[1..][j - 1];
        assert NothingCutOff(ts, qual, target) <==> NoValues(ts[1..], qual, target);
      } else {
        var u, f := UpToEmpty(ts[1..], qual, target), Flat(ts[1..], qual, target);
        assert NothingCutOff(ts, qual, target) <==> NothingCutOff(ts[1..], qual, target);
        if Qualifies(qual, ts[0]) && v + u == v + f {
          assert u == (v + u)[|v|..] == (v + f)[|v|..] == f;
        }
      }
    }
  }

  predicate NoValues<T, R>(ts: seq<T>, qual: Option<T -> bool>, target: T -> Target<R>) {
    forall j :: 0 <= j < |ts| && Qualifies(qual, ts[j]) ==> Values(target(ts[j])) == []
  }

  lemma {:induction false} FlatEmpty<T, R>(ts: seq<T>, qual: Option<T -> bool>, target: T -> Target<R>)
    ensures Flat(ts, qual, target) == [] <==> NoValues(ts, qual, target)
  {
    if ts != [] {
      FlatEmpty(ts[1..], qual, target);
      assert forall j :: 0 < j < |ts| ==> ts[j] == ts[1..][j - 1];
    }
  }
}

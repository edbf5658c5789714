/** Merging rollout evaluations: every evaluation of a trained experiment is a JSON object
    naming its experiment (`id`) and its rollout (`rollout`); `concat` folds them into one
    object whose `id` lists the experiments, whose scalar fields must agree across all
    evaluations, and whose list and object fields are collected per experiment and rollout. */
module Rollouts {
  import opened Wrappers
  import Seqs

  /** A JSON value as `json.load` returns it; integers and floats are both numbers. */
  datatype Json =
    | Null
    | Bool(b: bool)
    | Num(x: real)
    | Str(s: string)
    | List(items: seq<Json>)
    | Object(members: seq<(string, Json)>)

  /** A dictionary, as its entries in insertion order. */
  type Entries = seq<(string, Json)>

  /** No key occurs twice, as in every Python dictionary. */
  predicate IsDict(d: Entries)
  {
    forall i, j | 0 <= i < j < |d| :: d[i].0 != d[j].0
  }

  /** `d[k]`, or `None` where Python raises `KeyError`. */
  function Get(d: Entries, k: string): (r: Option<Json>)
    ensures r.Some? <==> exists i | 0 <= i < |d| :: d[i].0 == k
    ensures r.Some? ==> (k, r.value) in d
  {
    if d == [] then None
    else if d[0].0 == k then Some(d[0].1)
    else
      assert forall i | 1 <= i < |d| :: d[i] == d[1..][i - 1];
      Get(d[1..], k)
  }

  /** In a dictionary, `d[k]` is the one value stored under `k`. */
  lemma GetUnique(d: Entries, k: string, v: Json)
    requires IsDict(d) && (k, v) in d
    ensures Get(d, k) == Some(v)
  {
    if d[0].0 != k {
      assert (k, v) in d[1..];
      GetUnique(d[1..], k, v);
    }
  }

  /** `d` after `d.pop(k)`: the entry under `k` is gone, the others keep their order. */
  function Pop(d: Entries, k: string): (r: Entries)
  {
    if d == [] then []
    else (if d[0].0 != k then [d[0]] else []) + Pop(d[1..], k)
  }

  /** Popping `k` keeps exactly the entries under other keys. */
  lemma {:induction false} PopMembers(d: Entries, k: string)
    ensures forall e | e in Pop(d, k) :: e in d && e.0 != k
    ensures forall e | e in d && e.0 != k :: e in Pop(d, k)
  {
    if d != [] {
      PopMembers(d[1..], k);
      assert forall e | e in d && e != d[0] :: e in d[1..];
    }
  }

  /** Popping one key leaves the lookup of another unchanged. */
  lemma {:induction false} GetPop(d: Entries, k: string, other: string)
    requires k != other
    ensures Get(Pop(d, k), other) == Get(d, other)
  {
    if d != [] {
      var rest := Pop(d[1..], k);
      GetPop(d[1..], k, other);
      if d[0].0 != k {
        var p := [d[0]] + rest;
        assert Pop(d, k) == p;
        assert p[0] == d[0] && p[1..] == rest;
        if d[0].0 != other {
          assert Get(p, other) == Get(rest, other);
        }
      } else {
        assert Pop(d, k) == rest;
      }
    }
  }

  /** Popping from a dictionary leaves a dictionary. */
  lemma {:induction false} PopIsDict(d: Entries, k: string)
    requires IsDict(d)
    ensures IsDict(Pop(d, k))
  {
    if d != [] {
      assert IsDict(d[1..]);
      PopIsDict(d[1..], k);
      var rest := Pop(d[1..], k);
      PopMembers(d[1..], k);
      forall e | e in rest ensures e.0 != d[0].0 {
        var i :| 1 <= i < |d| && d[i] == e;
      }
    }
  }

  /** The fields an evaluation contributes once `id` and `rollout` are popped. */
  function Fields(ev: Entries): Entries
  {
    Pop(Pop(ev, "id"), "rollout")
  }

  /** `isinstance(v, list) or isinstance(v, dict)`: a value that is collected rather than
      compared. */
  predicate Appended(v: Json)
  {
    v.List? || v.Object?
  }

  /** Whether a value can key a dictionary (lists and dictionaries cannot). */
  predicate Hashable(v: Json)
  {
    !v.List? && !v.Object?
  }

  /** A `defaultdict(list)` keyed by rollout id, as its entries in insertion order. */
  type Runs = seq<(Json, seq<Json>)>

  /** `runs[q]`, the empty list when `q` has no entry yet. */
  function RunOf(runs: Runs, q: Json): seq<Json>
  {
    if runs == [] then []
    else if runs[0].0 == q then runs[0].1
    else RunOf(runs[1..], q)
  }

  /** `runs[q].append(v)`: only the list under `q` grows, by `v` at its end; no list is left
      empty. */
  function AppendRun(runs: Runs, q: Json, v: Json): (r: Runs)
    ensures forall q' :: RunOf(r, q') == RunOf(runs, q') + (if q' == q then [v] else [])
    ensures r != []
    ensures (forall i | 0 <= i < |runs| :: runs[i].1 != []) ==> forall i | 0 <= i < |r| :: r[i].1 != []
  {
    if runs == [] then [(q, [v])]
    else if runs[0].0 == q then [(q, runs[0].1 + [v])] + runs[1..]
    else
      var rest := AppendRun(runs[1..], q, v);
      assert forall i | 1 <= i < |runs| :: runs[i] == runs[1..][i - 1];
      [runs[0]] + rest
  }

  /** What the merged object holds under a field name: the first scalar seen, or one
      `defaultdict(list)` of rollouts per experiment index. */
  datatype Slot = Scalar(value: Json) | Series(experiments: seq<Runs>)

  /** The merged object: `result['id']` and the other fields. */
  datatype Merged = Merged(ids: seq<Json>, slots: map<string, Slot>)

  /** Why merging fails: a missing `id` or `rollout` (`KeyError`), two different values for a
      scalar field (`ValueError`), a field that is a scalar in one evaluation and collected
      in another (`TypeError` or `AttributeError`), a collected field with no slot for its
      experiment (`IndexError`), or a rollout id that cannot key a dictionary
      (`TypeError`). */
  datatype ConcatError =
    | MissingKey(key: string)
    | Mismatch(field: string)
    | KindClash(field: string)
    | NoSlot(field: string)
    | Unhashable(field: string)

  /** The merged object before any evaluation. */
  const Empty := Merged([], map[])

  /** One pass of the inner loop: field `k` with value `v` of an evaluation of experiment
      index `exIdx` and rollout `qid`. */
  function Put(m: Merged, exIdx: nat, qid: Json, k: string, v: Json): Result<Merged, ConcatError>
  {
    if !Appended(v) then
      if k in m.slots then
        if m.slots[k] != Scalar(v) then Failure(Mismatch(k)) else Success(m)
      else Success(m.(slots := m.slots[k := Scalar(v)]))
    else
      var slot := if k in m.slots then m.slots[k] else Series([]);
      if slot.Scalar? then Failure(KindClash(k))
      else
        var exps := if exIdx == |slot.experiments| then slot.experiments + [[]] else slot.experiments;
        if exIdx >= |exps| then Failure(NoSlot(k))
        else if !Hashable(qid) then Failure(Unhashable(k))
        else Success(m.(slots := m.slots[k := Series(exps[exIdx := AppendRun(exps[exIdx], qid, v)])]))
  }

  /** The inner loop over an evaluation's fields, in order, stopping at the first failure. */
  function PutAll(m: Merged, exIdx: nat, qid: Json, fields: Entries): Result<Merged, ConcatError>
  {
    if fields == [] then Success(m)
    else
      match PutAll(m, exIdx, qid, fields[..|fields| - 1])
      case Failure(e) => Failure(e)
      case Success(t) => Put(t, exIdx, qid, fields[|fields| - 1].0, fields[|fields| - 1].1)
  }

  /** Once a prefix of the fields fails, putting all of them fails the same way. */
  lemma {:induction false} PutAllSticks(m: Merged, exIdx: nat, qid: Json, fields: Entries, k: nat)
    requires k <= |fields|
    requires PutAll(m, exIdx, qid, fields[..k]).Failure?
    ensures PutAll(m, exIdx, qid, fields) == PutAll(m, exIdx, qid, fields[..k])
    decreases |fields|
  {
    if k < |fields| {
      var init := fields[..|fields| - 1];
      assert init[..k] == fields[..k];
      PutAllSticks(m, exIdx, qid, init, k);
    } else {
      assert fields[..k] == fields;
    }
  }

  /** The experiment list after seeing `exid`: unchanged if it is there, extended otherwise. */
  function Register(ids: seq<Json>, exid: Json): (r: seq<Json>)
    ensures exid in r
  {
    if exid in ids then ids else ids + [exid]
  }

  /** Registering keeps the earlier experiments at their indexes and adds none twice. */
  lemma RegisterKeeps(ids: seq<Json>, exid: Json)
    requires Seqs.NoDup(ids)
    ensures var r := Register(ids, exid);
            |ids| <= |r| && (forall e | 0 <= e < |ids| :: r[e] == ids[e]) && Seqs.NoDup(r)
  {
  }

  /** One pass of the outer loop: pop `id` and `rollout`, register the experiment, and put
      every remaining field. */
  function Step(m: Merged, ev: Entries): Result<Merged, ConcatError>
  {
    match Get(ev, "id")
    case None => Failure(MissingKey("id"))
    case Some(exid) =>
      match Get(Pop(ev, "id"), "rollout")
      case None => Failure(MissingKey("rollout"))
      case Some(qid) =>
        var ids := Register(m.ids, exid);
        PutAll(m.(ids := ids), Seqs.First(ids, exid), qid, Fields(ev))
  }

  /** `concat(evaluations)` on the evaluations' contents. */
  function ConcatOf(evs: seq<Entries>): Result<Merged, ConcatError>
  {
    Seqs.Fold(Step, Empty, evs)
  }

  /** The body of the inner loop of `concat`: field `k` with value `v`. A value that is not
      a list or a dictionary must agree with the one already stored under `k`; any other
      value is appended to the run `qid` of experiment `exIdx`, opening that experiment's
      slot when it is the next one. */
  method PutField(m: Merged, exIdx: nat, qid: Json, k: string, v: Json) returns (r: Result<Merged, ConcatError>)
    ensures r == Put(m, exIdx, qid, k, v)
  {
    var append := v.List? || v.Object?;
    if !append {
      if k in m.slots {
        if m.slots[k] != Scalar(v) {
          return Failure(Mismatch(k));
        }
        return Success(m);
      }
      return Success(m.(slots := m.slots[k := Scalar(v)]));
    }
    var slot := if k in m.slots then m.slots[k] else Series([]);
    if slot.Scalar? {
      return Failure(KindClash(k));
    }
    var exps := slot.experiments;
    if exIdx == |exps| {
      exps := exps + [[]];
    }
    if exIdx >= |exps| {
      return Failure(NoSlot(k));
    }
    if !Hashable(qid) {
      return Failure(Unhashable(k));
    }
    exps := exps[exIdx := AppendRun(exps[exIdx], qid, v)];
    r := Success(m.(slots := m.slots[k := Series(exps)]));
  }

  /** One more field of a put that has not failed yet is one more `Put`. */
  lemma PutAllStep(m: Merged, exIdx: nat, qid: Json, fields: Entries, j: nat, t: Merged)
    requires j < |fields| && PutAll(m, exIdx, qid, fields[..j]) == Success(t)
    ensures PutAll(m, exIdx, qid, fields[..j + 1]) == Put(t, exIdx, qid, fields[j].0, fields[j].1)
  {
    assert fields[..j + 1][..j] == fields[..j];
  }

  /** The inner loop of `concat`: put every field of one evaluation, in order. */
  method PutFields(m: Merged, exIdx: nat, qid: Json, fields: Entries) returns (r: Result<Merged, ConcatError>)
    ensures r == PutAll(m, exIdx, qid, fields)
  {
    var result := m;
    var j := 0;
    while j < |fields|
      invariant 0 <= j <= |fields|
      invariant PutAll(m, exIdx, qid, fields[..j]) == Success(result)
    {
      var (k, v) := fields[j];
      var next := PutField(result, exIdx, qid, k, v);
      PutAllStep(m, exIdx, qid, fields, j, result);
      if next.Failure? {
        PutAllSticks(m, exIdx, qid, fields, j + 1);
        return next;
      }
      result := next.value;
      j := j + 1;
    }
    assert fields[..j] == fields;
    r := Success(result);
  }

  /** What `concat` may leave of an evaluation `d`: all of it, `d` without `id`, or `d`
      without `id` and `rollout`. */
  predicate PoppedFrom(d': Entries, d: Entries)
  {
    d' == d || d' == Pop(d, "id") || d' == Fields(d)
  }

  /** One pass of the outer loop of `concat`: pop `id` and `rollout` from the evaluation
      `qtb`, register its experiment, and put its remaining fields; `rest` is what the
      pops leave of the evaluation. */
  method Absorb(result: Merged, qtb: Entries) returns (r: Result<Merged, ConcatError>, rest: Entries)
    ensures r == Step(result, qtb)
    ensures r.Success? ==> rest == Fields(qtb)
    ensures PoppedFrom(rest, qtb)
  {
    rest := qtb;
    var exid := Get(rest, "id");
    if exid.None? {
      return Failure(MissingKey("id")), rest;
    }
    rest := Pop(rest, "id");
    var qid := Get(rest, "rollout");
    if qid.None? {
      return Failure(MissingKey("rollout")), rest;
    }
    rest := Pop(rest, "rollout");
    var ids := result.ids;
    if exid.value !in ids {
      ids := ids + [exid.value];
    }
    var exIdx := Seqs.First(ids, exid.value);
    r := PutFields(result.(ids := ids), exIdx, qid.value, rest);
  }

  /** The merge of a prefix that has not failed goes on with the next evaluation. */
  lemma ConcatStep(input: seq<Entries>, n: nat, result: Merged)
    requires n < |input| && ConcatOf(input[..n]) == Success(result)
    ensures ConcatOf(input[..n + 1]) == Step(result, input[n])
  {
    Seqs.FoldStep(Step, Empty, input, n, result);
  }

  /** The merge stops at the first evaluation that fails. */
  lemma ConcatStops(input: seq<Entries>, n: nat, result: Merged)
    requires n < |input| && ConcatOf(input[..n]) == Success(result) && Step(result, input[n]).Failure?
    ensures ConcatOf(input) == Step(result, input[n])
  {
    ConcatStep(input, n, result);
    Seqs.FoldSticks(Step, Empty, input, n + 1);
  }

  /** The evaluations `cur` once the first `n` of `input` are merged: those have lost
      `id` and `rollout`, the others are as given. */
  ghost predicate MergedUpTo(cur: seq<Entries>, input: seq<Entries>, n: nat)
  {
    && n <= |cur| == |input|
    && (forall i | 0 <= i < n :: cur[i] == Fields(input[i]))
    && (forall i | n <= i < |cur| :: cur[i] == input[i])
  }

  /** Merging evaluation `n` replaces it by its fields. */
  lemma MergedUpToStep(cur: seq<Entries>, input: seq<Entries>, n: nat, rest: Entries)
    requires MergedUpTo(cur, input, n) && n < |cur| && rest == Fields(input[n])
    ensures MergedUpTo(cur[n := rest], input, n + 1)
  {
  }

  /** Whatever a merge stopped at evaluation `n` left of it, every evaluation has at most
      lost its `id` and `rollout`. */
  lemma MergedUpToPopped(cur: seq<Entries>, input: seq<Entries>, n: nat, rest: Entries)
    requires MergedUpTo(cur, input, n) && n < |cur| && PoppedFrom(rest, input[n])
    ensures forall i | 0 <= i < |cur| :: PoppedFrom(cur[n := rest][i], input[i])
  {
  }

  /** `concat(evaluations)`: each evaluation, in order, has `id` and `rollout` popped (the
      caller's dictionaries change), registers its experiment, and puts its remaining
      fields; the first error stops the merge. */
  method Concat(evaluations: array<Entries>) returns (r: Result<Merged, ConcatError>)
    modifies evaluations
    ensures r == ConcatOf(old(evaluations[..]))
    ensures r.Success? ==> forall i | 0 <= i < evaluations.Length :: evaluations[i] == Fields(old(evaluations[i]))
    ensures forall i | 0 <= i < evaluations.Length :: PoppedFrom(evaluations[i], old(evaluations[i]))
  {
    ghost var input := evaluations[..];
    var result := Empty;
    var n := 0;
    while n < evaluations.Length
      invariant 0 <= n <= evaluations.Length
      invariant ConcatOf(input[..n]) == Success(result)
      invariant MergedUpTo(evaluations[..], input, n)
    {
      ConcatStep(input, n, result);
      ghost var cur := evaluations[..];
      var merged, rest := Absorb(result, evaluations[n]);
      evaluations[n] := rest;
      assert evaluations[..] == cur[n := rest];
      if merged.Failure? {
        MergedUpToPopped(cur, input, n, rest);
        ConcatStops(input, n, result);
        return merged;
      }
      MergedUpToStep(cur, input, n, rest);
      result := merged.value;
      n := n + 1;
    }
    assert input[..n] == input;
    r := Success(result);
  }

  // ---------------------------------------------------------------- what the merge promises

  /** A merge that succeeds has succeeded on every prefix. */
  lemma ConcatPrefix(evs: seq<Entries>, n: nat)
    requires n <= |evs| && ConcatOf(evs).Success?
    ensures ConcatOf(evs[..n]).Success?
  {
    if ConcatOf(evs[..n]).Failure? {
      Seqs.FoldSticks(Step, Empty, evs, n);
    }
  }

  /** The last evaluation of a successful merge is merged into the merge of the others. */
  lemma ConcatLast(evs: seq<Entries>)
    requires evs != [] && ConcatOf(evs).Success?
    ensures ConcatOf(evs[..|evs| - 1]).Success?
    ensures ConcatOf(evs) == Step(ConcatOf(evs[..|evs| - 1]).value, evs[|evs| - 1])
  {
    ConcatPrefix(evs, |evs| - 1);
  }

  /** A successful step popped an `id` and a `rollout` and put the remaining fields under
      the experiment's index. */
  lemma StepParts(m: Merged, ev: Entries)
    requires Step(m, ev).Success?
    ensures Get(ev, "id").Some? && Get(ev, "rollout").Some?
    ensures var exid := Get(ev, "id").value;
            var ids := Register(m.ids, exid);
            Step(m, ev) == PutAll(m.(ids := ids), Seqs.First(ids, exid), Get(ev, "rollout").value, Fields(ev))
  {
    GetPop(ev, "id", "rollout");
  }

  /** Putting fields never touches the experiment list. */
  lemma {:induction false} PutAllKeepsIds(m: Merged, exIdx: nat, qid: Json, fields: Entries)
    requires PutAll(m, exIdx, qid, fields).Success?
    ensures PutAll(m, exIdx, qid, fields).value.ids == m.ids
  {
    if fields != [] {
      PutAllKeepsIds(m, exIdx, qid, fields[..|fields| - 1]);
    }
  }

  /** The experiment ids of evaluations that all have one. */
  function ExIds(evs: seq<Entries>): (r: seq<Json>)
    requires forall i | 0 <= i < |evs| :: Get(evs[i], "id").Some?
    ensures |r| == |evs| && forall i | 0 <= i < |evs| :: Some(r[i]) == Get(evs[i], "id")
  {
    seq(|evs|, i requires 0 <= i < |evs| => Get(evs[i], "id").value)
  }

  /** `result['id']` lists each experiment id once, in order of first appearance: a merge
      succeeds only if every evaluation has an `id`, and its experiment list is then the ids
      with repeats removed. */
  lemma {:induction false} ConcatIds(evs: seq<Entries>)
    requires ConcatOf(evs).Success?
    ensures forall i | 0 <= i < |evs| :: Get(evs[i], "id").Some?
    ensures ConcatOf(evs).value.ids == Seqs.Dedup(ExIds(evs))
  {
    if evs != [] {
      var init, ev := evs[..|evs| - 1], evs[|evs| - 1];
      ConcatLast(evs);
      ConcatIds(init);
      StepIds(ConcatOf(init).value, ev);
      assert forall i | 0 <= i < |evs| - 1 :: evs[i] == init[i];
      ExIdsSnoc(evs);
    }
  }

  /** The distinct ids of a list of evaluations, extended by one more, are those of the
      shorter list with the new id registered. */
  lemma ExIdsSnoc(evs: seq<Entries>)
    requires evs != [] && forall i | 0 <= i < |evs| :: Get(evs[i], "id").Some?
    ensures Seqs.Dedup(ExIds(evs)) == Register(Seqs.Dedup(ExIds(evs[..|evs| - 1])), Get(evs[|evs| - 1], "id").value)
  {
    var s := ExIds(evs);
    assert s[..|s| - 1] == ExIds(evs[..|evs| - 1]);
  }

  /** A successful step registers the evaluation's experiment and nothing else. */
  lemma StepIds(m: Merged, ev: Entries)
    requires Step(m, ev).Success?
    ensures Get(ev, "id").Some?
    ensures Step(m, ev).value.ids == Register(m.ids, Get(ev, "id").value)
  {
    StepParts(m, ev);
    var exid := Get(ev, "id").value;
    var ids := Register(m.ids, exid);
    PutAllKeepsIds(m.(ids := ids), Seqs.First(ids, exid), Get(ev, "rollout").value, Fields(ev));
  }

  /** Whether a slot holds the scalar `v`. */
  predicate HoldsScalar(m: Merged, k: string, v: Json)
  {
    k in m.slots && m.slots[k] == Scalar(v)
  }

  /** Whether a slot collects values. */
  predicate HoldsSeries(m: Merged, k: string)
  {
    k in m.slots && m.slots[k].Series?
  }

  /** A field, once it holds a scalar, keeps it; once it collects, it goes on collecting. */
  ghost predicate KindsKept(m: Merged, m': Merged)
  {
    && (forall k | k in m.slots && m.slots[k].Scalar? :: HoldsScalar(m', k, m.slots[k].value))
    && (forall k | HoldsSeries(m, k) :: HoldsSeries(m', k))
  }

  /** One field put keeps the kinds of all fields and records the kind of this one. */
  lemma PutKinds(m: Merged, exIdx: nat, qid: Json, k: string, v: Json)
    requires Put(m, exIdx, qid, k, v).Success?
    ensures KindsKept(m, Put(m, exIdx, qid, k, v).value)
    ensures !Appended(v) ==> HoldsScalar(Put(m, exIdx, qid, k, v).value, k, v)
    ensures Appended(v) ==> HoldsSeries(Put(m, exIdx, qid, k, v).value, k)
  {
  }

  /** Putting all fields keeps the kinds of all fields and records the kind of each. */
  lemma {:induction false} PutAllKinds(m: Merged, exIdx: nat, qid: Json, fields: Entries)
    requires PutAll(m, exIdx, qid, fields).Success?
    ensures KindsKept(m, PutAll(m, exIdx, qid, fields).value)
    ensures forall kv | kv in fields && !Appended(kv.1) :: HoldsScalar(PutAll(m, exIdx, qid, fields).value, kv.0, kv.1)
    ensures forall kv | kv in fields && Appended(kv.1) :: HoldsSeries(PutAll(m, exIdx, qid, fields).value, kv.0)
  {
    if fields != [] {
      var init, kv := fields[..|fields| - 1], fields[|fields| - 1];
      PutAllKinds(m, exIdx, qid, init);
      var t := PutAll(m, exIdx, qid, init).value;
      PutKinds(t, exIdx, qid, kv.0, kv.1);
      assert forall x | x in fields :: x in init || x == kv;
    }
  }

  /** Whether some evaluation gives field `k` the scalar value `v`. */
  ghost predicate ScalarIn(evs: seq<Entries>, k: string, v: Json)
  {
    exists i | 0 <= i < |evs| :: (k, v) in Fields(evs[i]) && !Appended(v)
  }

  /** Whether some evaluation collects field `k`. */
  ghost predicate SeriesIn(evs: seq<Entries>, k: string)
  {
    exists i, v | 0 <= i < |evs| :: (k, v) in Fields(evs[i]) && Appended(v)
  }

  /** After a successful merge every scalar field holds the value each evaluation gave it,
      so they all agree (the check is global, not per experiment), and every collected field
      collects. */
  lemma {:induction false} ConcatKinds(evs: seq<Entries>)
    requires ConcatOf(evs).Success?
    ensures forall k, v | ScalarIn(evs, k, v) :: HoldsScalar(ConcatOf(evs).value, k, v)
    ensures forall k | SeriesIn(evs, k) :: HoldsSeries(ConcatOf(evs).value, k)
  {
    if evs != [] {
      var init, ev := evs[..|evs| - 1], evs[|evs| - 1];
      ConcatLast(evs);
      ConcatKinds(init);
      var m := ConcatOf(init).value;
      StepParts(m, ev);
      var exid := Get(ev, "id").value;
      var ids := Register(m.ids, exid);
      var m1 := m.(ids := ids);
      var exIdx, qid := Seqs.First(ids, exid), Get(ev, "rollout").value;
      PutAllKinds(m1, exIdx, qid, Fields(ev));
      var r := PutAll(m1, exIdx, qid, Fields(ev)).value;
      assert ConcatOf(evs).value == r;
      assert m1.slots == m.slots;
      forall k, v | ScalarIn(evs, k, v) ensures HoldsScalar(r, k, v) {
        var i :| 0 <= i < |evs| && (k, v) in Fields(evs[i]) && !Appended(v);
        if i < |evs| - 1 {
          assert evs[i] == init[i];
          assert ScalarIn(init, k, v);
          assert HoldsScalar(m1, k, v);
        }
      }
      forall k | SeriesIn(evs, k) ensures HoldsSeries(r, k) {
        var i, v :| 0 <= i < |evs| && (k, v) in Fields(evs[i]) && Appended(v);
        if i < |evs| - 1 {
          assert evs[i] == init[i];
          assert SeriesIn(init, k);
          assert HoldsSeries(m1, k);
        }
      }
    }
  }

  /** Two evaluations giving a scalar field different values make the merge fail, whichever
      experiments they belong to; so does a field that is a scalar in one evaluation and
      collected in another. */
  lemma ConcatConflicts(evs: seq<Entries>, k: string)
    ensures (exists v, w | v != w :: ScalarIn(evs, k, v) && ScalarIn(evs, k, w)) ==> ConcatOf(evs).Failure?
    ensures (exists v :: ScalarIn(evs, k, v)) && SeriesIn(evs, k) ==> ConcatOf(evs).Failure?
  {
    if ConcatOf(evs).Success? {
      ConcatKinds(evs);
    }
  }

  // ---------------------------------------------------------------- collected fields

  /** `d[k]` after appending an entry for a key `d` lacks. */
  lemma {:induction false} GetSnoc(d: Entries, k0: string, v0: Json, k: string)
    requires IsDict(d + [(k0, v0)])
    ensures Get(d + [(k0, v0)], k) == if k == k0 then Some(v0) else Get(d, k)
  {
    if d == [] {
      assert [(k0, v0)][1..] == [];
    } else {
      var d' := d + [(k0, v0)];
      assert d'[1..] == d[1..] + [(k0, v0)];
      assert IsDict(d'[1..]);
      GetSnoc(d[1..], k0, v0, k);
      assert d'[|d'| - 1].0 == k0;
    }
  }

  /** The values collected under field `k` for experiment index `e` and rollout `q`
      (`result[k][e][q]`, empty where that slot does not exist). */
  function RunsAt(m: Merged, k: string, e: nat, q: Json): seq<Json>
  {
    if k in m.slots && m.slots[k].Series? && e < |m.slots[k].experiments| then RunOf(m.slots[k].experiments[e], q)
    else []
  }

  /** No field has a slot for an experiment not yet registered, and no slot or rollout list
      is empty. */
  ghost predicate Bounded(m: Merged)
  {
    forall k | HoldsSeries(m, k) ::
      var exps := m.slots[k].experiments;
      && |exps| <= |m.ids|
      && forall e | 0 <= e < |exps| :: exps[e] != [] && forall j | 0 <= j < |exps[e]| :: exps[e][j].1 != []
  }

  /** One field put appends a collected value under its field, experiment index and
      rollout, and changes no other list. */
  lemma PutRunsAt(m: Merged, exIdx: nat, qid: Json, k0: string, v0: Json, k: string, e: nat, q: Json)
    requires Put(m, exIdx, qid, k0, v0).Success?
    ensures RunsAt(Put(m, exIdx, qid, k0, v0).value, k, e, q)
            == RunsAt(m, k, e, q) + (if k == k0 && e == exIdx && q == qid && Appended(v0) then [v0] else [])
  {
    if Appended(v0) && k == k0 {
      var slot := if k0 in m.slots then m.slots[k0] else Series([]);
      var exps := if exIdx == |slot.experiments| then slot.experiments + [[]] else slot.experiments;
      var exps' := exps[exIdx := AppendRun(exps[exIdx], qid, v0)];
      assert Put(m, exIdx, qid, k0, v0).value.slots[k0] == Series(exps');
      if e == exIdx {
        assert RunOf(exps[exIdx], q) == RunsAt(m, k, e, q);
      }
    }
  }

  /** A field put keeps the experiment list, and keeps every slot within it and non-empty. */
  lemma PutBounded(m: Merged, exIdx: nat, qid: Json, k0: string, v0: Json)
    requires Put(m, exIdx, qid, k0, v0).Success? && exIdx < |m.ids| && Bounded(m)
    ensures Put(m, exIdx, qid, k0, v0).value.ids == m.ids && Bounded(Put(m, exIdx, qid, k0, v0).value)
  {
  }

  /** `d[k]` for a dictionary, seen from its last entry. */
  lemma GetLast(d: Entries, k: string)
    requires IsDict(d) && d != []
    ensures IsDict(d[..|d| - 1])
    ensures Get(d, k) == if k == d[|d| - 1].0 then Some(d[|d| - 1].1) else Get(d[..|d| - 1], k)
    ensures Get(d[..|d| - 1], d[|d| - 1].0).None?
  {
    var init, kv := d[..|d| - 1], d[|d| - 1];
    assert d == init + [(kv.0, kv.1)];
    GetSnoc(init, kv.0, kv.1, k);
    GetSnoc(init, kv.0, kv.1, kv.0);
  }

  /** The value an evaluation's fields give field `k`, as a list of one when it is collected
      and of none otherwise. */
  function Collected(fields: Entries, k: string): (r: seq<Json>)
    ensures r != [] <==> Get(fields, k).Some? && Appended(Get(fields, k).value)
    ensures r != [] ==> r == [Get(fields, k).value]
  {
    match Get(fields, k)
    case Some(v) => if Appended(v) then [v] else []
    case None => []
  }

  /** `m'` is `m` with the collected values of `fields` appended under experiment index
      `exIdx` and rollout `qid`, and no other list changed. */
  ghost predicate Appends(m: Merged, m': Merged, exIdx: nat, qid: Json, fields: Entries)
  {
    forall k, e: nat, q :: RunsAt(m', k, e, q) == RunsAt(m, k, e, q) + (if e == exIdx && q == qid then Collected(fields, k) else [])
  }

  /** Putting the fields of one evaluation (a dictionary) appends each collected value under
      its field, the experiment index and the rollout, and changes no other list. */
  lemma {:induction false} PutAllRuns(m: Merged, exIdx: nat, qid: Json, fields: Entries)
    requires IsDict(fields) && exIdx < |m.ids| && Bounded(m)
    requires PutAll(m, exIdx, qid, fields).Success?
    ensures var m' := PutAll(m, exIdx, qid, fields).value;
            m'.ids == m.ids && Bounded(m') && Appends(m, m', exIdx, qid, fields)
  {
    if fields != [] {
      var init, kv := fields[..|fields| - 1], fields[|fields| - 1];
      GetLast(fields, kv.0);
      PutAllRuns(m, exIdx, qid, init);
      var t := PutAll(m, exIdx, qid, init).value;
      PutBounded(t, exIdx, qid, kv.0, kv.1);
      var m' := PutAll(m, exIdx, qid, fields).value;
      forall k, e: nat, q
        ensures RunsAt(m', k, e, q) == RunsAt(m, k, e, q) + (if e == exIdx && q == qid then Collected(fields, k) else [])
      {
        PutRunsAt(t, exIdx, qid, kv.0, kv.1, k, e, q);
        GetLast(fields, k);
      }
    }
  }

  /** What one evaluation adds under field `k` for experiment `exid` and rollout `q`: its
      value for `k`, if that value is collected and the evaluation belongs to them. */
  function Contribution(ev: Entries, k: string, exid: Json, q: Json): seq<Json>
  {
    if Get(ev, "id") == Some(exid) && Get(ev, "rollout") == Some(q) then Collected(Fields(ev), k) else []
  }

  /** What all evaluations add under field `k` for experiment `exid` and rollout `q`, in
      order. */
  function Contribs(evs: seq<Entries>, k: string, exid: Json, q: Json): seq<Json>
  {
    if evs == [] then []
    else Contribs(evs[..|evs| - 1], k, exid, q) + Contribution(evs[|evs| - 1], k, exid, q)
  }

  /** Evaluations of other experiments add nothing. */
  lemma {:induction false} ContribsAbsent(evs: seq<Entries>, k: string, exid: Json, q: Json)
    requires forall i | 0 <= i < |evs| :: Get(evs[i], "id") != Some(exid)
    ensures Contribs(evs, k, exid, q) == []
  {
    if evs != [] {
      ContribsAbsent(evs[..|evs| - 1], k, exid, q);
    }
  }

  /** What a step appended to one list, seen from the experiment list before and after
      registering the step's experiment. */
  lemma StepRunsAt(m: Merged, m1: Merged, m': Merged, ev: Entries, exIdx: nat, qid: Json, k: string, e: nat, q: Json)
    requires m1.slots == m.slots && e < |m1.ids| && exIdx < |m1.ids| && Seqs.NoDup(m1.ids)
    requires Get(ev, "id") == Some(m1.ids[exIdx]) && Get(ev, "rollout") == Some(qid)
    requires RunsAt(m', k, e, q) == RunsAt(m1, k, e, q) + (if e == exIdx && q == qid then Collected(Fields(ev), k) else [])
    ensures RunsAt(m', k, e, q) == RunsAt(m, k, e, q) + Contribution(ev, k, m1.ids[e], q)
  {
    assert m1.ids[e] == m1.ids[exIdx] <==> e == exIdx;
  }

  /** A successful step appends the evaluation's collected values under its experiment's
      index and its rollout. */
  lemma StepRuns(m: Merged, ev: Entries)
    requires Step(m, ev).Success? && IsDict(ev) && Bounded(m) && Seqs.NoDup(m.ids)
    ensures var m' := Step(m, ev).value;
            && Bounded(m') && Seqs.NoDup(m'.ids) && |m.ids| <= |m'.ids|
            && (forall e | 0 <= e < |m.ids| :: m'.ids[e] == m.ids[e])
            && forall k, e: nat, q | e < |m'.ids| :: RunsAt(m', k, e, q) == RunsAt(m, k, e, q) + Contribution(ev, k, m'.ids[e], q)
  {
    StepParts(m, ev);
    var exid, qid := Get(ev, "id").value, Get(ev, "rollout").value;
    var ids := Register(m.ids, exid);
    var exIdx := Seqs.First(ids, exid);
    var m1 := m.(ids := ids);
    RegisterKeeps(m.ids, exid);
    assert Bounded(m1);
    PopIsDict(ev, "id");
    PopIsDict(Pop(ev, "id"), "rollout");
    PutAllRuns(m1, exIdx, qid, Fields(ev));
    var m' := PutAll(m1, exIdx, qid, Fields(ev)).value;
    forall k, e: nat, q | e < |m'.ids|
      ensures RunsAt(m', k, e, q) == RunsAt(m, k, e, q) + Contribution(ev, k, m'.ids[e], q)
    {
      StepRunsAt(m, m1, m', ev, exIdx, qid, k, e, q);
    }
  }

  /** Every evaluation has an `id`, and it is registered in `m`. */
  ghost predicate IdsKnown(m: Merged, evs: seq<Entries>)
  {
    forall i | 0 <= i < |evs| :: Get(evs[i], "id").Some? && Get(evs[i], "id").value in m.ids
  }

  /** After a successful merge the experiment list has no repeats and holds the id of every
      evaluation merged. */
  lemma ConcatIdsKnown(evs: seq<Entries>)
    requires ConcatOf(evs).Success?
    ensures Seqs.NoDup(ConcatOf(evs).value.ids)
    ensures IdsKnown(ConcatOf(evs).value, evs)
  {
    ConcatIds(evs);
    Seqs.DedupSpec(ExIds(evs));
    forall i | 0 <= i < |evs| ensures Get(evs[i], "id").value in ConcatOf(evs).value.ids {
      assert ExIds(evs)[i] == Get(evs[i], "id").value;
    }
  }

  /** One list after one more evaluation, given the list before it and what the evaluation
      appended. */
  lemma RunsSnocAt(m: Merged, m': Merged, evs: seq<Entries>, k: string, e: nat, q: Json)
    requires evs != []
    requires e < |m'.ids| && |m.ids| <= |m'.ids| && Seqs.NoDup(m'.ids)
    requires forall d | 0 <= d < |m.ids| :: m'.ids[d] == m.ids[d]
    requires IdsKnown(m, evs[..|evs| - 1])
    requires e < |m.ids| ==> RunsAt(m, k, e, q) == Contribs(evs[..|evs| - 1], k, m.ids[e], q)
    requires e >= |m.ids| ==> RunsAt(m, k, e, q) == []
    requires RunsAt(m', k, e, q) == RunsAt(m, k, e, q) + Contribution(evs[|evs| - 1], k, m'.ids[e], q)
    ensures RunsAt(m', k, e, q) == Contribs(evs, k, m'.ids[e], q)
  {
    var init := evs[..|evs| - 1];
    if e >= |m.ids| {
      assert m'.ids[e] !in m.ids;
      ContribsAbsent(init, k, m'.ids[e], q);
    }
  }

  /** One more evaluation keeps every list equal to what the evaluations so far gave it. */
  lemma RunsSnoc(m: Merged, m': Merged, evs: seq<Entries>)
    requires evs != [] && Step(m, evs[|evs| - 1]) == Success(m') && IsDict(evs[|evs| - 1])
    requires Bounded(m) && Seqs.NoDup(m.ids)
    requires IdsKnown(m, evs[..|evs| - 1])
    requires RunsMatch(m, evs[..|evs| - 1])
    ensures Bounded(m') && RunsMatch(m', evs)
  {
    StepRuns(m, evs[|evs| - 1]);
    forall k, e: nat, q | e < |m'.ids|
      ensures RunsAt(m', k, e, q) == Contribs(evs, k, m'.ids[e], q)
    {
      RunsSnocAt(m, m', evs, k, e, q);
    }
  }

  /** Every list of `m` holds exactly what the evaluations gave it. */
  ghost predicate RunsMatch(m: Merged, evs: seq<Entries>)
  {
    forall k, e: nat, q | e < |m.ids| :: RunsAt(m, k, e, q) == Contribs(evs, k, m.ids[e], q)
  }

  /** Each collected field's list for an experiment and a rollout holds exactly the values
      the evaluations of that experiment and rollout gave the field, in input order
      (`result[k][ex_idx][qid]`). */
  lemma {:induction false} ConcatRuns(evs: seq<Entries>)
    requires forall i | 0 <= i < |evs| :: IsDict(evs[i])
    requires ConcatOf(evs).Success?
    ensures Bounded(ConcatOf(evs).value)
    ensures RunsMatch(ConcatOf(evs).value, evs)
  {
    if evs != [] {
      var init, ev := evs[..|evs| - 1], evs[|evs| - 1];
      ConcatLast(evs);
      ConcatRuns(init);
      ConcatIdsKnown(init);
      RunsSnoc(ConcatOf(init).value, ConcatOf(evs).value, evs);
    } else {
      assert ConcatOf(evs) == Success(Empty);
    }
  }

  /** A field collects values for an experiment only after it has collected some for every
      earlier experiment: its per-experiment slots are created in experiment order
      (`ex_idx == len(result[k])`), and a merge in which an experiment's evaluations lack a
      collected field that a later experiment's evaluations carry does not succeed. */
  lemma EarlierExperimentsCollected(evs: seq<Entries>, k: string, e: nat, e': nat, q: Json)
    requires forall i | 0 <= i < |evs| :: IsDict(evs[i])
    requires ConcatOf(evs).Success?
    requires var m := ConcatOf(evs).value;
             e' < e < |m.ids| && Contribs(evs, k, m.ids[e], q) != []
    ensures var m := ConcatOf(evs).value;
            exists q' :: Contribs(evs, k, m.ids[e'], q') != []
  {
    ConcatRuns(evs);
    var m := ConcatOf(evs).value;
    assert RunsAt(m, k, e, q) != [];
    var exps: seq<Runs> := m.slots[k].experiments;
    assert HoldsSeries(m, k);
    var q' := exps[e'][0].0;
    assert RunsAt(m, k, e', q') == exps[e'][0].1 != [];
  }
}

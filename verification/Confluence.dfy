/** At-least-once delivery: workers run whole write sequences, crash anywhere, are retried,
    and interleave their atomic upserts arbitrarily. */
module Confluence {
  import opened Graphs
  import opened GraphLaws

  /** One delivered job: the job, and after how many upserts each failed attempt stopped. */
  datatype Delivery = Delivery(job: nat, crashes: seq<nat>)

  function Attempts(ws: seq<Write>, crashes: seq<nat>): seq<Write> {
    if crashes == [] then ws else
      ws[..if crashes[0] <= |ws| then crashes[0] else |ws|] + Attempts(ws, crashes[1..])
  }

  function Streams(jobs: seq<seq<Write>>, ds: seq<Delivery>): (streams: seq<seq<Write>>)
    requires forall d :: d in ds ==> d.job < |jobs|
    ensures |streams| == |ds|
    ensures forall i :: 0 <= i < |ds| ==> streams[i] == Attempts(jobs[ds[i].job], ds[i].crashes)
  {
    seq(|ds|, i requires 0 <= i < |ds| => Attempts(jobs[ds[i].job], ds[i].crashes))
  }

  /** `schedule` names, upsert by upsert, the stream that moves next, until all are empty. */
  ghost predicate Schedules(streams: seq<seq<Write>>, schedule: seq<nat>)
    decreases |schedule|
  {
    if schedule == [] then forall i :: 0 <= i < |streams| ==> streams[i] == [] else
      && schedule[0] < |streams|
      && streams[schedule[0]] != []
      && Schedules(streams[schedule[0] := streams[schedule[0]][1..]], schedule[1..])
  }

  ghost function Interleave(streams: seq<seq<Write>>, schedule: seq<nat>): seq<Write>
    requires Schedules(streams, schedule)
    decreases |schedule|
  {
    if schedule == [] then [] else
      var i := schedule[0];
      [streams[i][0]] + Interleave(streams[i := streams[i][1..]], schedule[1..])
  }

  function Flatten(jobs: seq<seq<Write>>): seq<Write> {
    if jobs == [] then [] else jobs[0] + Flatten(jobs[1..])
  }

  // ---- What an interleaving is -------------------------------------------------------------

  /** Each failed attempt makes a first part of the job's upserts; the last attempt makes all. */
  lemma {:induction false} AttemptsSpelled(ws: seq<Write>, crashes: seq<nat>)
    ensures Attempts(ws, []) == ws
    ensures crashes != [] && crashes[0] <= |ws| ==>
              Attempts(ws, crashes) == ws[..crashes[0]] + Attempts(ws, crashes[1..])
    ensures crashes != [] && crashes[0] > |ws| ==> Attempts(ws, crashes) == ws + Attempts(ws, crashes[1..])
  {
    assert ws[..|ws|] == ws;
  }

  /** The elements of a list that a schedule gives to stream `i`, in order. */
  function Picked(ws: seq<Write>, schedule: seq<nat>, i: nat): seq<Write>
    requires |ws| == |schedule|
  {
    if ws == [] then [] else (if schedule[0] == i then [ws[0]] else []) + Picked(ws[1..], schedule[1..], i)
  }

  /** `ws` takes every stream apart, in the order the schedule says, and leaves each in order. */
  ghost predicate Merges(streams: seq<seq<Write>>, schedule: seq<nat>, ws: seq<Write>) {
    && |ws| == |schedule|
    && (forall k :: 0 <= k < |schedule| ==> schedule[k] < |streams|)
    && forall i :: 0 <= i < |streams| ==> Picked(ws, schedule, i) == streams[i]
  }

  lemma MergesFirst(streams: seq<seq<Write>>, schedule: seq<nat>, ws: seq<Write>)
    requires schedule != [] && schedule[0] < |streams| && ws != [] && |ws| == |schedule|
    ensures var i := schedule[0];
            Merges(streams, schedule, ws) <==>
            && streams[i] != [] && streams[i][0] == ws[0]
            && Merges(streams[i := streams[i][if streams[i] == [] then 0 else 1..]], schedule[1..], ws[1..])
  {
    var i := schedule[0];
    var rest := streams[i := streams[i][if streams[i] == [] then 0 else 1..]];
    assert forall k :: 0 <= k < |schedule| - 1 ==> schedule[1..][k] == schedule[k + 1];
    assert Picked(ws, schedule, i) == [ws[0]] + Picked(ws[1..], schedule[1..], i);
    forall j | 0 <= j < |streams| && j != i ensures Picked(ws, schedule, j) == Picked(ws[1..], schedule[1..], j) {
      assert [] + Picked(ws[1..], schedule[1..], j) == Picked(ws[1..], schedule[1..], j);
    }
    if Merges(streams, schedule, ws) {
      assert streams[i] == [ws[0]] + Picked(ws[1..], schedule[1..], i);
    }
    if streams[i] != [] && streams[i][0] == ws[0] && Merges(rest, schedule[1..], ws[1..]) {
      assert rest[i] == streams[i][1..];
      assert streams[i] == [ws[0]] + streams[i][1..];
      forall j | 0 <= j < |streams| ensures Picked(ws, schedule, j) == streams[j] {
        assert rest[j] == Picked(ws[1..], schedule[1..], j);
      }
    }
  }

  /** The interleavings are exactly the merges: the streams may take turns in any way, and each
      keeps its order. */
  lemma {:induction false} InterleaveExactly(streams: seq<seq<Write>>, schedule: seq<nat>, ws: seq<Write>)
    ensures Schedules(streams, schedule) && Interleave(streams, schedule) == ws <==> Merges(streams, schedule, ws)
    decreases |schedule|
  {
    if schedule != [] && schedule[0] < |streams| && streams[schedule[0]] != [] && ws != [] && |ws| == |schedule| {
      var i := schedule[0];
      MergesFirst(streams, schedule, ws);
      InterleaveExactly(streams[i := streams[i][1..]], schedule[1..], ws[1..]);
      assert ws == [ws[0]] + ws[1..];
    } else if schedule == [] {
    } else {
      NoMerge(streams, schedule, ws);
    }
  }

  lemma NoMerge(streams: seq<seq<Write>>, schedule: seq<nat>, ws: seq<Write>)
    requires schedule != []
    requires !(schedule[0] < |streams| && streams[schedule[0]] != [] && ws != [] && |ws| == |schedule|)
    ensures !Merges(streams, schedule, ws)
    ensures !(Schedules(streams, schedule) && Interleave(streams, schedule) == ws)
  {
    if schedule[0] < |streams| && |ws| == |schedule| { MergesFirst(streams, schedule, ws); }
    if Schedules(streams, schedule) { InterleaveLength(streams, schedule); }
  }

  lemma {:induction false} InterleaveLength(streams: seq<seq<Write>>, schedule: seq<nat>)
    requires Schedules(streams, schedule)
    ensures |Interleave(streams, schedule)| == |schedule|
    decreases |schedule|
  {
    if schedule != [] {
      var i := schedule[0];
      InterleaveLength(streams[i := streams[i][1..]], schedule[1..]);
    }
  }

  // ---- Agreement ---------------------------------------------------------------------------

  /** Two jobs leave the same value wherever both set a property. */
  ghost predicate Agree(vs: seq<Write>, ws: seq<Write>) {
    forall r: Ref, p: string :: p in Net(vs, r).props && p in Net(ws, r).props ==>
      Net(vs, r).props[p] == Net(ws, r).props[p]
  }

  ghost predicate AllAgree(jobs: seq<seq<Write>>) {
    forall i, j :: 0 <= i < |jobs| && 0 <= j < |jobs| ==> Agree(jobs[i], jobs[j])
  }

  /** `whole` has exactly the labels of the parts. */
  ghost predicate MixesLabels(whole: set<string>, parts: seq<set<string>>) {
    forall l :: l in whole <==> exists i :: 0 <= i < |parts| && l in parts[i]
  }

  /** `whole` has exactly the properties of the parts, each with the value some part gives it. */
  ghost predicate MixesProps(whole: Props, parts: seq<Props>) {
    && (forall p, i :: 0 <= i < |parts| && p in parts[i] ==> p in whole)
    && (forall p :: p in whole ==> exists i :: 0 <= i < |parts| && p in parts[i] && parts[i][p] == whole[p])
  }

  lemma MixesLabelsCons(whole: set<string>, parts: seq<set<string>>, i: nat, head: set<string>)
    requires i < |parts| && MixesLabels(whole, parts)
    ensures MixesLabels(head + whole, parts[i := head + parts[i]])
  {
    var parts' := parts[i := head + parts[i]];
    forall l ensures l in head + whole <==> exists j :: 0 <= j < |parts'| && l in parts'[j] {
      if l in head { assert l in parts'[i]; }
      if l in whole {
        var j :| 0 <= j < |parts| && l in parts[j];
        assert l in parts'[j];
      }
      if j :| 0 <= j < |parts'| && l in parts'[j] && l !in head { assert l in parts[j]; }
    }
  }

  lemma MixesPropsCons(whole: Props, parts: seq<Props>, i: nat, head: Props)
    requires i < |parts| && MixesProps(whole, parts)
    ensures MixesProps(head + whole, parts[i := head + parts[i]])
  {
    var whole', parts' := head + whole, parts[i := head + parts[i]];
    forall p, j | 0 <= j < |parts'| && p in parts'[j] ensures p in whole' {
      assert p in head || p in parts[j];
    }
    forall p | p in whole' ensures exists j :: 0 <= j < |parts'| && p in parts'[j] && parts'[j][p] == whole'[p] {
      if p in whole {
        var j :| 0 <= j < |parts| && p in parts[j] && parts[j][p] == whole[p];
        assert p in parts'[j] && parts'[j][p] == whole'[p];
      } else {
        assert p !in parts[i];
        assert p in parts'[i] && parts'[i][p] == whole'[p];
      }
    }
  }

  function LabelsAt(parts: seq<seq<Write>>, r: Ref): seq<set<string>> {
    seq(|parts|, i requires 0 <= i < |parts| => Net(parts[i], r).labels)
  }

  function PropsAt(parts: seq<seq<Write>>, r: Ref): seq<Props> {
    seq(|parts|, i requires 0 <= i < |parts| => Net(parts[i], r).props)
  }

  /** At `r`, the net effect of `merged` is made of the net effects of the parts. */
  ghost predicate Mixes(merged: seq<Write>, parts: seq<seq<Write>>, r: Ref) {
    && (Targets(merged, r) <==> exists i :: 0 <= i < |parts| && Targets(parts[i], r))
    && MixesLabels(Net(merged, r).labels, LabelsAt(parts, r))
    && MixesProps(Net(merged, r).props, PropsAt(parts, r))
  }

  lemma LabelsMoved(head: seq<Write>, merged: seq<Write>, rest: seq<seq<Write>>, parts: seq<seq<Write>>, i: nat, r: Ref)
    requires i < |rest| && parts == rest[i := head + rest[i]]
    requires MixesLabels(Net(merged, r).labels, LabelsAt(rest, r))
    ensures MixesLabels(Net(head + merged, r).labels, LabelsAt(parts, r))
  {
    NetConcat(head, merged, r);
    NetConcat(head, rest[i], r);
    MixesLabelsCons(Net(merged, r).labels, LabelsAt(rest, r), i, Net(head, r).labels);
    assert LabelsAt(rest, r)[i := Net(head, r).labels + LabelsAt(rest, r)[i]] == LabelsAt(parts, r);
  }

  lemma PropsMoved(head: seq<Write>, merged: seq<Write>, rest: seq<seq<Write>>, parts: seq<seq<Write>>, i: nat, r: Ref)
    requires i < |rest| && parts == rest[i := head + rest[i]]
    requires MixesProps(Net(merged, r).props, PropsAt(rest, r))
    ensures MixesProps(Net(head + merged, r).props, PropsAt(parts, r))
  {
    NetConcat(head, merged, r);
    NetConcat(head, rest[i], r);
    MixesPropsCons(Net(merged, r).props, PropsAt(rest, r), i, Net(head, r).props);
    assert PropsAt(rest, r)[i := Net(head, r).props + PropsAt(rest, r)[i]] == PropsAt(parts, r);
  }

  /** The first write of part `i` moved to the front of a mix of what remains. */
  lemma MixesCons(merged: seq<Write>, parts: seq<seq<Write>>, i: nat, r: Ref)
    requires i < |parts| && parts[i] != []
    requires Mixes(merged, parts[i := parts[i][1..]], r)
    ensures Mixes([parts[i][0]] + merged, parts, r)
  {
    var head, rest := [parts[i][0]], parts[i := parts[i][1..]];
    assert parts[i] == head + rest[i];
    assert parts == rest[i := head + rest[i]];
    LabelsMoved(head, merged, rest, parts, i, r);
    PropsMoved(head, merged, rest, parts, i, r);
    MixesTargets(merged, parts, i, r);
  }

  lemma MixesTargets(merged: seq<Write>, parts: seq<seq<Write>>, i: nat, r: Ref)
    requires i < |parts| && parts[i] != []
    requires var rest := parts[i := parts[i][1..]];
             Targets(merged, r) <==> exists j :: 0 <= j < |rest| && Targets(rest[j], r)
    ensures Targets([parts[i][0]] + merged, r) <==> exists j :: 0 <= j < |parts| && Targets(parts[j], r)
  {
    var head, rest := [parts[i][0]], parts[i := parts[i][1..]];
    assert parts[i] == head + rest[i];
    TargetsConcat(head, merged, r);
    TargetsConcat(head, rest[i], r);
    if Targets(head, r) {
      assert Targets(parts[i], r);
    } else {
      assert forall j :: 0 <= j < |parts| ==> (Targets(parts[j], r) <==> Targets(rest[j], r));
    }
  }

  lemma {:induction false} InterleaveMixes(streams: seq<seq<Write>>, schedule: seq<nat>, r: Ref)
    requires Schedules(streams, schedule)
    ensures Mixes(Interleave(streams, schedule), streams, r)
    decreases |schedule|
  {
    if schedule != [] {
      var i := schedule[0];
      var rest := streams[i := streams[i][1..]];
      InterleaveMixes(rest, schedule[1..], r);
      MixesCons(Interleave(rest, schedule[1..]), streams, i, r);
    }
  }

  lemma {:induction false} FlattenMixes(jobs: seq<seq<Write>>, r: Ref)
    ensures Mixes(Flatten(jobs), jobs, r)
  {
    if jobs != [] {
      FlattenMixes(jobs[1..], r);
      PrependMixes(Flatten(jobs[1..]), jobs[1..], jobs[0], r);
      assert [jobs[0]] + jobs[1..] == jobs;
    }
  }

  lemma {:induction false} PrependMixes(merged: seq<Write>, parts: seq<seq<Write>>, ws: seq<Write>, r: Ref)
    requires Mixes(merged, parts, r)
    ensures Mixes(ws + merged, [ws] + parts, r)
    decreases |ws|
  {
    if ws == [] {
      assert ws + merged == merged;
      AddEmptyPart(merged, parts, r);
    } else {
      PrependMixes(merged, parts, ws[1..], r);
      var all := [ws] + parts;
      assert all[0 := all[0][1..]] == [ws[1..]] + parts;
      MixesCons(ws[1..] + merged, all, 0, r);
      assert [ws[0]] + (ws[1..] + merged) == ws + merged;
    }
  }

  lemma AddEmptyPart(merged: seq<Write>, parts: seq<seq<Write>>, r: Ref)
    requires Mixes(merged, parts, r)
    ensures Mixes(merged, [[]] + parts, r)
  {
    var all: seq<seq<Write>> := [[]] + parts;
    assert LabelsAt(all, r) == [{}] + LabelsAt(parts, r);
    assert PropsAt(all, r) == [map[]] + PropsAt(parts, r);
    AddEmptyLabels(Net(merged, r).labels, LabelsAt(parts, r));
    AddEmptyProps(Net(merged, r).props, PropsAt(parts, r));
    assert forall i {:trigger all[i]} :: 0 < i < |all| ==> all[i] == parts[i - 1];
    if i :| 0 <= i < |parts| && Targets(parts[i], r) { assert Targets(all[i + 1], r); }
  }

  lemma AddEmptyLabels(whole: set<string>, parts: seq<set<string>>)
    requires MixesLabels(whole, parts)
    ensures MixesLabels(whole, [{}] + parts)
  {
    var all: seq<set<string>> := [{}] + parts;
    forall l ensures l in whole <==> exists i :: 0 <= i < |all| && l in all[i] {
      if i :| 0 <= i < |parts| && l in parts[i] { assert l in all[i + 1]; }
    }
  }

  lemma AddEmptyProps(whole: Props, parts: seq<Props>)
    requires MixesProps(whole, parts)
    ensures MixesProps(whole, [map[]] + parts)
  {
    var all: seq<Props> := [map[]] + parts;
    forall p | p in whole ensures exists i :: 0 <= i < |all| && p in all[i] && all[i][p] == whole[p] {
      var i :| 0 <= i < |parts| && p in parts[i] && parts[i][p] == whole[p];
      assert all[i + 1] == parts[i];
    }
  }

  /** Failed attempts followed by a whole run have the net effect of the whole run. */
  lemma {:induction false} AttemptsNet(ws: seq<Write>, crashes: seq<nat>, r: Ref)
    ensures Net(Attempts(ws, crashes), r) == Net(ws, r)
    ensures Targets(Attempts(ws, crashes), r) <==> Targets(ws, r)
  {
    if crashes != [] {
      var part := ws[..if crashes[0] <= |ws| then crashes[0] else |ws|];
      AttemptsNet(ws, crashes[1..], r);
      NetConcat(part, Attempts(ws, crashes[1..]), r);
      TargetsConcat(part, Attempts(ws, crashes[1..]), r);
      TargetsConcat(part, ws[|part|..], r);
      assert ws == part + ws[|part|..];
      NetOfPart(part, ws, r);
      MergeLaws(Zero, Net(part, r), Net(ws, r));
      MergeLaws(Net(part, r), Zero, Zero);
      MergeLaws(Net(ws, r), Zero, Zero);
    }
  }

  ghost predicate Delivered(ds: seq<Delivery>, job: nat) {
    exists i :: 0 <= i < |ds| && ds[i].job == job
  }

  ghost predicate AtLeastOnce(jobs: seq<seq<Write>>, ds: seq<Delivery>) {
    && (forall i :: 0 <= i < |ds| ==> ds[i].job < |jobs|)
    && (forall j :: 0 <= j < |jobs| ==> Delivered(ds, j))
  }

  lemma ContentsEqual(g: Graph, h: Graph)
    requires forall r :: Find(g, r) == Find(h, r)
    ensures ContentsOf(g) == ContentsOf(h)
  {
    forall n: NodeId ensures n in g.nodes.cells <==> n in h.nodes.cells
                     ensures n in g.nodes.cells ==> g.nodes.cells[n] == h.nodes.cells[n] {
      assert Find(g, NodeRef(n)) == Find(h, NodeRef(n));
    }
    forall e: EdgeId ensures e in g.edges.cells <==> e in h.edges.cells
                     ensures e in g.edges.cells ==> g.edges.cells[e] == h.edges.cells[e] {
      assert Find(g, EdgeRef(e)) == Find(h, EdgeRef(e));
    }
    assert g.nodes.cells == h.nodes.cells && g.edges.cells == h.edges.cells;
  }

  lemma RemixLabels(whole: set<string>, xs: seq<set<string>>, ys: seq<set<string>>)
    requires MixesLabels(whole, xs)
    requires forall x :: x in xs <==> x in ys
    ensures MixesLabels(whole, ys)
  {
    forall l ensures l in whole <==> exists i :: 0 <= i < |ys| && l in ys[i] {
      if i :| 0 <= i < |xs| && l in xs[i] { assert xs[i] in ys; }
      if i :| 0 <= i < |ys| && l in ys[i] { assert ys[i] in xs; }
    }
  }

  lemma RemixProps(whole: Props, xs: seq<Props>, ys: seq<Props>)
    requires MixesProps(whole, xs)
    requires forall x :: x in xs <==> x in ys
    ensures MixesProps(whole, ys)
  {
    forall p, i | 0 <= i < |ys| && p in ys[i] ensures p in whole { assert ys[i] in xs; }
    forall p | p in whole ensures exists i :: 0 <= i < |ys| && p in ys[i] && ys[i][p] == whole[p] {
      var i :| 0 <= i < |xs| && p in xs[i] && xs[i][p] == whole[p];
      assert xs[i] in ys;
    }
  }

  ghost predicate AgreeProps(parts: seq<Props>) {
    forall i, j, p :: 0 <= i < |parts| && 0 <= j < |parts| && p in parts[i] && p in parts[j] ==>
      parts[i][p] == parts[j][p]
  }

  lemma MixedValue(a: Props, parts: seq<Props>, i: nat, p: string)
    requires AgreeProps(parts) && MixesProps(a, parts)
    requires i < |parts| && p in parts[i]
    ensures p in a && a[p] == parts[i][p]
  {
    var j :| 0 <= j < |parts| && p in parts[j] && parts[j][p] == a[p];
  }

  lemma MixedSame(a: Props, b: Props, parts: seq<Props>, p: string)
    requires AgreeProps(parts) && MixesProps(a, parts) && MixesProps(b, parts)
    requires p in a
    ensures p in b && a[p] == b[p]
  {
    var i :| 0 <= i < |parts| && p in parts[i] && parts[i][p] == a[p];
    MixedValue(b, parts, i, p);
  }

  /** Parts that agree can be mixed in one way only. */
  lemma MixedOnce(a: Props, b: Props, parts: seq<Props>)
    requires AgreeProps(parts) && MixesProps(a, parts) && MixesProps(b, parts)
    ensures a == b
  {
    forall p | p in a ensures p in b && a[p] == b[p] { MixedSame(a, b, parts, p); }
    forall p | p in b ensures p in a { MixedSame(b, a, parts, p); }
  }

  lemma MixAbsorbs(a: Props, parts: seq<Props>, i: nat)
    requires AgreeProps(parts) && MixesProps(a, parts) && i < |parts|
    ensures a + parts[i] == a
  {
    forall p | p in parts[i] ensures p in a && a[p] == parts[i][p] { MixedValue(a, parts, i, p); }
  }

  lemma AgreeAt(jobs: seq<seq<Write>>, r: Ref)
    requires AllAgree(jobs)
    ensures AgreeProps(PropsAt(jobs, r))
  {
    forall i, j | 0 <= i < |jobs| && 0 <= j < |jobs| ensures Agree(jobs[i], jobs[j]) {}
  }

  /** A stream has, at `r`, the effect of the job it delivers. */
  lemma StreamPart(jobs: seq<seq<Write>>, ds: seq<Delivery>, i: nat, r: Ref)
    requires (forall d :: d in ds ==> d.job < |jobs|) && i < |ds|
    ensures LabelsAt(Streams(jobs, ds), r)[i] == LabelsAt(jobs, r)[ds[i].job]
    ensures PropsAt(Streams(jobs, ds), r)[i] == PropsAt(jobs, r)[ds[i].job]
    ensures Targets(Streams(jobs, ds)[i], r) <==> Targets(jobs[ds[i].job], r)
  {
    AttemptsNet(jobs[ds[i].job], ds[i].crashes, r);
  }

  /** Every job's effect is that of some stream. */
  lemma JobPart(jobs: seq<seq<Write>>, ds: seq<Delivery>, j: nat, r: Ref)
    requires AtLeastOnce(jobs, ds) && j < |jobs|
    ensures LabelsAt(jobs, r)[j] in LabelsAt(Streams(jobs, ds), r)
    ensures PropsAt(jobs, r)[j] in PropsAt(Streams(jobs, ds), r)
    ensures Targets(jobs[j], r) ==> exists i :: 0 <= i < |Streams(jobs, ds)| && Targets(Streams(jobs, ds)[i], r)
  {
    assert Delivered(ds, j);
    var i :| 0 <= i < |ds| && ds[i].job == j;
    StreamPart(jobs, ds, i, r);
    assert LabelsAt(Streams(jobs, ds), r)[i] == LabelsAt(jobs, r)[j];
    assert PropsAt(Streams(jobs, ds), r)[i] == PropsAt(jobs, r)[j];
  }

  /** Streams have, at `r`, the same effects as the jobs they deliver. */
  lemma SameParts(jobs: seq<seq<Write>>, ds: seq<Delivery>, r: Ref)
    requires AtLeastOnce(jobs, ds)
    ensures var streams := Streams(jobs, ds);
            && (forall x :: x in LabelsAt(streams, r) <==> x in LabelsAt(jobs, r))
            && (forall x :: x in PropsAt(streams, r) <==> x in PropsAt(jobs, r))
            && ((exists i :: 0 <= i < |streams| && Targets(streams[i], r))
                <==> (exists j :: 0 <= j < |jobs| && Targets(jobs[j], r)))
  {
    forall i | 0 <= i < |ds|
      ensures LabelsAt(Streams(jobs, ds), r)[i] in LabelsAt(jobs, r)
      ensures PropsAt(Streams(jobs, ds), r)[i] in PropsAt(jobs, r)
      ensures Targets(Streams(jobs, ds)[i], r) ==> exists j :: 0 <= j < |jobs| && Targets(jobs[j], r)
    {
      StreamPart(jobs, ds, i, r);
    }
    forall j | 0 <= j < |jobs|
      ensures LabelsAt(jobs, r)[j] in LabelsAt(Streams(jobs, ds), r)
      ensures PropsAt(jobs, r)[j] in PropsAt(Streams(jobs, ds), r)
      ensures Targets(jobs[j], r) ==> exists i :: 0 <= i < |Streams(jobs, ds)| && Targets(Streams(jobs, ds)[i], r)
    {
      JobPart(jobs, ds, j, r);
    }
  }

  lemma DeliveryNet(jobs: seq<seq<Write>>, ds: seq<Delivery>, schedule: seq<nat>, r: Ref)
    requires AtLeastOnce(jobs, ds) && AllAgree(jobs)
    requires Schedules(Streams(jobs, ds), schedule)
    ensures Net(Interleave(Streams(jobs, ds), schedule), r) == Net(Flatten(jobs), r)
    ensures Targets(Interleave(Streams(jobs, ds), schedule), r) <==> Targets(Flatten(jobs), r)
  {
    var streams := Streams(jobs, ds);
    var a, b := Net(Interleave(streams, schedule), r), Net(Flatten(jobs), r);
    InterleaveMixes(streams, schedule, r);
    FlattenMixes(jobs, r);
    SameParts(jobs, ds, r);
    RemixLabels(a.labels, LabelsAt(streams, r), LabelsAt(jobs, r));
    RemixProps(a.props, PropsAt(streams, r), PropsAt(jobs, r));
    AgreeAt(jobs, r);
    MixedOnce(a.props, b.props, PropsAt(jobs, r));
    assert a.labels == b.labels;
  }

  /** Confluence. When the jobs leave equal values wherever two of them set the same
      property, every at-least-once delivery of them, crashed attempts and redeliveries
      included, in every interleaving of atomic upserts, ends with the contents of running
      each job once. */
  lemma DeliveryConfluence(g: Graph, jobs: seq<seq<Write>>, ds: seq<Delivery>, schedule: seq<nat>)
    requires AtLeastOnce(jobs, ds) && AllAgree(jobs)
    requires Schedules(Streams(jobs, ds), schedule)
    ensures ContentsOf(ApplyAll(g, Interleave(Streams(jobs, ds), schedule)))
         == ContentsOf(ApplyAll(g, Flatten(jobs)))
  {
    var merged := Interleave(Streams(jobs, ds), schedule);
    forall r ensures Find(ApplyAll(g, merged), r) == Find(ApplyAll(g, Flatten(jobs)), r) {
      DeliveryNet(jobs, ds, schedule, r);
      FindAfterAll(g, merged, r);
      FindAfterAll(g, Flatten(jobs), r);
    }
    ContentsEqual(ApplyAll(g, merged), ApplyAll(g, Flatten(jobs)));
  }

  lemma LastJobWins(g: Graph, vs: seq<Write>, ws: seq<Write>, r: Ref, p: string)
    requires p in Net(ws, r).props
    ensures p in At(ApplyAll(g, vs + ws), r).props
    ensures At(ApplyAll(g, vs + ws), r).props[p] == Net(ws, r).props[p]
  {
    if !Targets(ws, r) { NetUntargeted(ws, r); }
    ApplyAllConcat(g, vs, ws);
    FindAfterAll(ApplyAll(g, vs), ws, r);
  }

  lemma JobInFlatten(jobs: seq<seq<Write>>, i: nat, r: Ref)
    requires i < |jobs| && AllAgree(jobs)
    ensures Merge(Net(Flatten(jobs), r), Net(jobs[i], r)) == Net(Flatten(jobs), r)
    ensures Targets(jobs[i], r) ==> Targets(Flatten(jobs), r)
  {
    FlattenMixes(jobs, r);
    AgreeAt(jobs, r);
    var whole, part := Net(Flatten(jobs), r), Net(jobs[i], r);
    assert LabelsAt(jobs, r)[i] == part.labels && PropsAt(jobs, r)[i] == part.props;
    MixAbsorbs(whole.props, PropsAt(jobs, r), i);
    assert whole.labels + part.labels == whole.labels;
  }

  lemma AgreementSuffices(g: Graph, jobs: seq<seq<Write>>, i: nat)
    requires i < |jobs| && AllAgree(jobs)
    ensures ContentsOf(ApplyAll(g, Flatten(jobs) + jobs[i])) == ContentsOf(ApplyAll(g, Flatten(jobs)))
  {
    var all := Flatten(jobs);
    forall r ensures Find(ApplyAll(g, all + jobs[i]), r) == Find(ApplyAll(g, all), r) {
      JobInFlatten(jobs, i, r);
      NetConcat(all, jobs[i], r);
      TargetsConcat(all, jobs[i], r);
      FindAfterAll(g, all + jobs[i], r);
      FindAfterAll(g, all, r);
    }
    ContentsEqual(ApplyAll(g, all + jobs[i]), ApplyAll(g, all));
  }

  lemma StabilityNeedsAgreement(g: Graph, all: seq<Write>, vs: seq<Write>, ws: seq<Write>)
    requires ContentsOf(ApplyAll(g, all + vs)) == ContentsOf(ApplyAll(g, all + ws))
    ensures Agree(vs, ws)
  {
    forall r: Ref, p: string | p in Net(vs, r).props && p in Net(ws, r).props
      ensures Net(vs, r).props[p] == Net(ws, r).props[p]
    {
      LastJobWins(g, all, vs, r, p);
      LastJobWins(g, all, ws, r, p);
      SameContentsSameCell(ApplyAll(g, all + vs), ApplyAll(g, all + ws), r);
    }
  }

  /** The jobs agree if and only if redelivering any one of them after all have run leaves the
      contents alone. */
  lemma RedeliveryIsExact(g: Graph, jobs: seq<seq<Write>>)
    ensures AllAgree(jobs) <==>
      forall i :: 0 <= i < |jobs| ==>
        ContentsOf(ApplyAll(g, Flatten(jobs) + jobs[i])) == ContentsOf(ApplyAll(g, Flatten(jobs)))
  {
    var all := Flatten(jobs);
    if AllAgree(jobs) {
      forall i | 0 <= i < |jobs| ensures ContentsOf(ApplyAll(g, all + jobs[i])) == ContentsOf(ApplyAll(g, all)) {
        AgreementSuffices(g, jobs, i);
      }
    }
    if forall i :: 0 <= i < |jobs| ==> ContentsOf(ApplyAll(g, all + jobs[i])) == ContentsOf(ApplyAll(g, all)) {
      forall i, j | 0 <= i < |jobs| && 0 <= j < |jobs| ensures Agree(jobs[i], jobs[j]) {
        StabilityNeedsAgreement(g, all, jobs[i], jobs[j]);
      }
    }
  }

  lemma SameContentsSameCell(g: Graph, h: Graph, r: Ref)
    requires ContentsOf(g) == ContentsOf(h)
    ensures Find(g, r) == Find(h, r)
  {
  }

  // ---- The condition is exact --------------------------------------------------------------

  /** Every at-least-once delivery, in every interleaving, ends with the contents of running
      each job once. */
  ghost predicate Converges(g: Graph, jobs: seq<seq<Write>>) {
    forall ds, schedule :: AtLeastOnce(jobs, ds) && Schedules(Streams(jobs, ds), schedule) ==>
      ContentsOf(ApplyAll(g, Interleave(Streams(jobs, ds), schedule))) == ContentsOf(ApplyAll(g, Flatten(jobs)))
  }

  /** Streams can always move one after another. */
  lemma {:induction false} OneAfterAnother(streams: seq<seq<Write>>, k: nat) returns (schedule: seq<nat>)
    requires k <= |streams| && forall i :: 0 <= i < k ==> streams[i] == []
    ensures Schedules(streams, schedule) && Interleave(streams, schedule) == Flatten(streams[k..])
    decreases |streams| - k, if k < |streams| then |streams[k]| else 0
  {
    if k == |streams| {
      schedule := [];
    } else if streams[k] == [] {
      schedule := OneAfterAnother(streams, k + 1);
      assert streams[k..][1..] == streams[k + 1..];
      assert [] + Flatten(streams[k + 1..]) == Flatten(streams[k + 1..]);
    } else {
      var rest := streams[k := streams[k][1..]];
      var more := OneAfterAnother(rest, k);
      schedule := [k] + more;
      assert schedule[1..] == more;
      MovedOne(streams, rest, k);
    }
  }

  lemma MovedOne(streams: seq<seq<Write>>, rest: seq<seq<Write>>, k: nat)
    requires k < |streams| && streams[k] != [] && rest == streams[k := streams[k][1..]]
    ensures Flatten(streams[k..]) == [streams[k][0]] + Flatten(rest[k..])
  {
    assert streams[k..][0] == streams[k] && rest[k..][0] == streams[k][1..];
    assert streams[k..][1..] == rest[k..][1..];
    assert streams[k] == [streams[k][0]] + streams[k][1..];
    Associative([streams[k][0]], streams[k][1..], Flatten(rest[k..][1..]));
  }

  lemma {:induction false} FlattenSnoc(jobs: seq<seq<Write>>, ws: seq<Write>)
    ensures Flatten(jobs + [ws]) == Flatten(jobs) + ws
  {
    if jobs == [] {
      assert [ws][1..] == [] && jobs + [ws] == [ws];
    } else {
      assert (jobs + [ws])[1..] == jobs[1..] + [ws];
      FlattenSnoc(jobs[1..], ws);
      Associative(jobs[0], Flatten(jobs[1..]), ws);
    }
  }

  lemma RunInOrder(streams: seq<seq<Write>>) returns (schedule: seq<nat>)
    requires streams != []
    ensures Schedules(streams, schedule)
    ensures Interleave(streams, schedule) == Flatten(streams[..|streams| - 1]) + streams[|streams| - 1]
  {
    var init, last := streams[..|streams| - 1], streams[|streams| - 1];
    schedule := OneAfterAnother(streams, 0);
    assert streams[0..] == streams == init + [last];
    FlattenSnoc(init, last);
  }

  /** Each job once, and job `i` again. */
  function OnceAndAgain(n: nat, i: nat): (ds: seq<Delivery>)
    ensures |ds| == n + 1 && ds[n] == Delivery(i, [])
    ensures forall j :: 0 <= j < n ==> ds[j] == Delivery(j, [])
  {
    seq(n, j requires 0 <= j < n => Delivery(j, [])) + [Delivery(i, [])]
  }

  /** Running all jobs and then one of them again is one such delivery. */
  lemma RedeliveryIsDelivery(jobs: seq<seq<Write>>, i: nat) returns (schedule: seq<nat>)
    requires i < |jobs|
    ensures AtLeastOnce(jobs, OnceAndAgain(|jobs|, i))
    ensures Schedules(Streams(jobs, OnceAndAgain(|jobs|, i)), schedule)
    ensures Interleave(Streams(jobs, OnceAndAgain(|jobs|, i)), schedule) == Flatten(jobs) + jobs[i]
  {
    var ds := OnceAndAgain(|jobs|, i);
    forall j | 0 <= j < |jobs| ensures Delivered(ds, j) { assert ds[j].job == j; }
    var streams := Streams(jobs, ds);
    assert streams[..|streams| - 1] == jobs && streams[|streams| - 1] == jobs[i];
    schedule := RunInOrder(streams);
  }

  /** Agreement is exactly what convergence takes: the jobs agree if and only if every
      at-least-once delivery of them, in every interleaving, ends with the same contents. */
  lemma AgreementIsExact(g: Graph, jobs: seq<seq<Write>>)
    ensures AllAgree(jobs) <==> Converges(g, jobs)
  {
    if AllAgree(jobs) {
      forall ds, schedule | AtLeastOnce(jobs, ds) && Schedules(Streams(jobs, ds), schedule)
        ensures ContentsOf(ApplyAll(g, Interleave(Streams(jobs, ds), schedule)))
             == ContentsOf(ApplyAll(g, Flatten(jobs)))
      {
        DeliveryConfluence(g, jobs, ds, schedule);
      }
    }
    if Converges(g, jobs) {
      forall i | 0 <= i < |jobs|
        ensures ContentsOf(ApplyAll(g, Flatten(jobs) + jobs[i])) == ContentsOf(ApplyAll(g, Flatten(jobs)))
      {
        var schedule := RedeliveryIsDelivery(jobs, i);
        assert Schedules(Streams(jobs, OnceAndAgain(|jobs|, i)), schedule);
      }
      RedeliveryIsExact(g, jobs);
    }
  }

  // ---- Even exactly once -------------------------------------------------------------------

  /** No redelivery and no crash: what a ledger that dedupes lets through. */
  ghost predicate ExactlyOnce(jobs: seq<seq<Write>>, ds: seq<Delivery>) {
    AtLeastOnce(jobs, ds) && |ds| == |jobs| && forall i :: 0 <= i < |ds| ==> ds[i].crashes == []
  }

  ghost predicate ConvergesOnce(g: Graph, jobs: seq<seq<Write>>) {
    forall ds, schedule :: ExactlyOnce(jobs, ds) && Schedules(Streams(jobs, ds), schedule) ==>
      ContentsOf(ApplyAll(g, Interleave(Streams(jobs, ds), schedule))) == ContentsOf(ApplyAll(g, Flatten(jobs)))
  }

  /** The jobs in order, but with job `i` moved to the end. */
  function LastOrder(n: nat, i: nat): (ds: seq<Delivery>)
    requires i < n
    ensures |ds| == n && ds[n - 1] == Delivery(i, [])
    ensures forall k :: 0 <= k < n - 1 ==> ds[k] == Delivery(if k < i then k else k + 1, [])
  {
    seq(n - 1, k requires 0 <= k < n - 1 => Delivery(if k < i then k else k + 1, [])) + [Delivery(i, [])]
  }

  lemma AllDelivered(n: nat, i: nat)
    requires i < n
    ensures forall j :: 0 <= j < n ==> Delivered(LastOrder(n, i), j)
  {
    var ds := LastOrder(n, i);
    forall j | 0 <= j < n ensures Delivered(ds, j) {
      assert ds[if j < i then j else if j == i then n - 1 else j - 1].job == j;
    }
  }

  /** Any job can be the last one to run. */
  lemma RunsLast(jobs: seq<seq<Write>>, i: nat) returns (schedule: seq<nat>, others: seq<Write>)
    requires i < |jobs|
    ensures ExactlyOnce(jobs, LastOrder(|jobs|, i))
    ensures Schedules(Streams(jobs, LastOrder(|jobs|, i)), schedule)
    ensures Interleave(Streams(jobs, LastOrder(|jobs|, i)), schedule) == others + jobs[i]
  {
    var n := |jobs|;
    var ds := LastOrder(n, i);
    AllDelivered(n, i);
    var streams := Streams(jobs, ds);
    assert streams[n - 1] == jobs[i];
    schedule := RunInOrder(streams);
    others := Flatten(streams[..n - 1]);
  }

  lemma LastRunsAgree(g: Graph, jobs: seq<seq<Write>>, i: nat, j: nat)
    requires i < |jobs| && j < |jobs| && ConvergesOnce(g, jobs)
    ensures Agree(jobs[i], jobs[j])
  {
    var s, us := RunsLast(jobs, i);
    var t, vs := RunsLast(jobs, j);
    assert ContentsOf(ApplyAll(g, us + jobs[i])) == ContentsOf(ApplyAll(g, vs + jobs[j]));
    forall r: Ref, p: string | p in Net(jobs[i], r).props && p in Net(jobs[j], r).props
      ensures Net(jobs[i], r).props[p] == Net(jobs[j], r).props[p]
    {
      LastJobWins(g, us, jobs[i], r, p);
      LastJobWins(g, vs, jobs[j], r, p);
      SameContentsSameCell(ApplyAll(g, us + jobs[i]), ApplyAll(g, vs + jobs[j]), r);
    }
  }

  /** Agreement is needed even when every job is delivered exactly once and nothing crashes:
      the jobs agree if and only if all such deliveries, in every interleaving, end with the
      same contents. */
  lemma OnceIsExact(g: Graph, jobs: seq<seq<Write>>)
    ensures AllAgree(jobs) <==> ConvergesOnce(g, jobs)
  {
    if AllAgree(jobs) {
      forall ds, schedule | ExactlyOnce(jobs, ds) && Schedules(Streams(jobs, ds), schedule)
        ensures ContentsOf(ApplyAll(g, Interleave(Streams(jobs, ds), schedule)))
             == ContentsOf(ApplyAll(g, Flatten(jobs)))
      {
        DeliveryConfluence(g, jobs, ds, schedule);
      }
    }
    if ConvergesOnce(g, jobs) {
      forall i, j | 0 <= i < |jobs| && 0 <= j < |jobs| ensures Agree(jobs[i], jobs[j]) {
        LastRunsAgree(g, jobs, i, j);
      }
    }
  }
}

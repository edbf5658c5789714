/** The network wrapper's derived views of a signalised road network: which nodes carry
    traffic lights, the edges entering them, the states and durations of their default
    programs, and the green phases those states make up. Each view is computed on first
    access and cached in a field of the network object. */
module Networks {
  import opened Wrappers
  import opened Records
  import opened TrafficLights
  import PyText
  import Seqs

  // ---------------------------------------------------------------- tls_ids

  /** Whether a node record is a traffic light. */
  predicate IsSignal(n: Attrs)
  {
    "type" in n && n["type"] == "traffic_light"
  }

  /** What `tls_ids` needs of the node records: every node has a `type`, every traffic light
      an `id`. */
  predicate NodesReadable(nodes: seq<Attrs>)
  {
    forall i | 0 <= i < |nodes| :: "type" in nodes[i] && (IsSignal(nodes[i]) ==> "id" in nodes[i])
  }

  /** The `id` of each record, in order. */
  function Ids(rs: seq<Attrs>): seq<string>
    requires forall i | 0 <= i < |rs| :: "id" in rs[i]
  {
    seq(|rs|, i requires 0 <= i < |rs| => rs[i]["id"])
  }

  /** `tls_ids`: the ids of the traffic-light nodes, in node order. */
  function TlsIdsOf(nodes: seq<Attrs>): seq<string>
    requires NodesReadable(nodes)
  {
    if nodes == [] then []
    else
      var last := nodes[|nodes| - 1];
      assert "type" in last;
      TlsIdsOf(nodes[..|nodes| - 1]) + (if last["type"] == "traffic_light" then [last["id"]] else [])
  }

  /** `tls_ids` are exactly the ids of the nodes whose `type` is `traffic_light`, in node
      order. */
  lemma {:induction false} TlsIdsSpec(nodes: seq<Attrs>)
    requires NodesReadable(nodes)
    ensures var signals := Seqs.Filter(IsSignal, nodes);
            (forall i | 0 <= i < |signals| :: "id" in signals[i]) && TlsIdsOf(nodes) == Ids(signals)
  {
    if nodes != [] {
      var init, last := nodes[..|nodes| - 1], nodes[|nodes| - 1];
      TlsIdsSpec(init);
      Seqs.FilterSnoc(IsSignal, init, last);
      assert init + [last] == nodes;
    }
  }

  // ---------------------------------------------------------------- approaches

  /** Whether an edge record ends at node `nid`. */
  predicate Enters(e: Attrs, nid: string)
  {
    "to" in e && e["to"] == nid
  }

  /** What `approaches` needs of the edge records: with any traffic light at all, every edge
      has a `to`; every edge that ends at a traffic light has an `id`. */
  predicate EdgesReadable(edges: seq<Attrs>, ids: seq<string>)
  {
    && (ids != [] ==> forall i | 0 <= i < |edges| :: "to" in edges[i])
    && (forall i, k | 0 <= i < |edges| && 0 <= k < |ids| && Enters(edges[i], ids[k]) :: "id" in edges[i])
  }

  /** `[e['id'] for e in edges if e['to'] == nid]`. */
  function Incoming(edges: seq<Attrs>, nid: string): seq<string>
    requires forall i | 0 <= i < |edges| :: Enters(edges[i], nid) ==> "id" in edges[i]
  {
    if edges == [] then []
    else
      var last := edges[|edges| - 1];
      Incoming(edges[..|edges| - 1], nid) + (if Enters(last, nid) then [last["id"]] else [])
  }

  /** `approaches`: for every traffic light, the edges entering it. */
  function ApproachesOf(edges: seq<Attrs>, ids: seq<string>): map<string, seq<string>>
    requires EdgesReadable(edges, ids)
  {
    map nid | nid in ids :: Incoming(edges, nid)
  }

  /** The approaches of a traffic light are exactly the ids of the edges whose `to` is that
      node, in edge order. */
  lemma {:induction false} IncomingSpec(edges: seq<Attrs>, nid: string)
    requires forall i | 0 <= i < |edges| :: Enters(edges[i], nid) ==> "id" in edges[i]
    ensures var entering := Seqs.Filter((e: Attrs) => Enters(e, nid), edges);
            (forall i | 0 <= i < |entering| :: "id" in entering[i]) && Incoming(edges, nid) == Ids(entering)
  {
    if edges != [] {
      var init, last := edges[..|edges| - 1], edges[|edges| - 1];
      IncomingSpec(init, nid);
      Seqs.FilterSnoc((e: Attrs) => Enters(e, nid), init, last);
      assert init + [last] == edges;
    }
  }

  // ---------------------------------------------------------------- states and durations

  /** What `states` needs of the registered programs: every traffic light has one, and the
      phases of a default program carry a `state`. */
  predicate StatesReadable(programs: map<string, Program>, ids: seq<string>)
  {
    forall k | 0 <= k < |ids| ::
      && ids[k] in programs
      && (IsDefault(programs[ids[k]]) ==>
            forall j | 0 <= j < |programs[ids[k]].phases| :: "state" in programs[ids[k]].phases[j])
  }

  /** What `durations` needs of the registered programs to get as far as `int()`: every
      traffic light has one, and the phases of a default program carry a `duration`. */
  predicate DurationsReadable(programs: map<string, Program>, ids: seq<string>)
  {
    forall k | 0 <= k < |ids| ::
      && ids[k] in programs
      && (IsDefault(programs[ids[k]]) ==>
            forall j | 0 <= j < |programs[ids[k]].phases| :: "duration" in programs[ids[k]].phases[j])
  }

  /** The phase states of a program if it is the default one, and none otherwise. */
  function StateList(p: Program): (r: seq<string>)
    requires IsDefault(p) ==> forall j | 0 <= j < |p.phases| :: "state" in p.phases[j]
    ensures IsDefault(p) ==> |r| == |p.phases| && forall j | 0 <= j < |r| :: r[j] == p.phases[j]["state"]
    ensures !IsDefault(p) ==> r == []
  {
    if IsDefault(p) then seq(|p.phases|, j requires 0 <= j < |p.phases| => p.phases[j]["state"]) else []
  }

  /** The phase durations of a program, as integers, if it is the default one, and none
      otherwise; `None` where `int()` rejects one of them (`ValueError`). */
  function DurationList(p: Program): (r: Option<seq<int>>)
    requires IsDefault(p) ==> forall j | 0 <= j < |p.phases| :: "duration" in p.phases[j]
    ensures IsDefault(p) ==>
              (r.Some? <==> forall j | 0 <= j < |p.phases| :: PyText.ParseInt(p.phases[j]["duration"]).Some?)
    ensures IsDefault(p) && r.Some? ==>
              |r.value| == |p.phases| &&
              forall j | 0 <= j < |r.value| :: Some(r.value[j]) == PyText.ParseInt(p.phases[j]["duration"])
    ensures !IsDefault(p) ==> r == Some([])
  {
    if !IsDefault(p) then Some([])
    else if forall j | 0 <= j < |p.phases| :: PyText.ParseInt(p.phases[j]["duration"]).Some? then
      Some(seq(|p.phases|, j requires 0 <= j < |p.phases| => PyText.ParseInt(p.phases[j]["duration"]).value))
    else None
  }

  /** A default program whose durations are written by `str()` reads back those integers. */
  lemma DurationListRoundTrip(p: Program, ds: seq<int>)
    requires IsDefault(p) && |ds| == |p.phases|
    requires forall j | 0 <= j < |ds| :: "duration" in p.phases[j] && p.phases[j]["duration"] == PyText.IntToString(ds[j])
    ensures DurationList(p) == Some(ds)
  {
    forall j | 0 <= j < |ds|
      ensures PyText.ParseInt(p.phases[j]["duration"]) == Some(ds[j])
    {
      PyText.ParseIntRoundTrip(ds[j]);
    }
    assert DurationList(p).value == ds;
  }

  /** `states`: each traffic light's default-program states. */
  function StatesOf(programs: map<string, Program>, ids: seq<string>): map<string, seq<string>>
    requires StatesReadable(programs, ids)
  {
    map nid | nid in ids :: StateList(programs[nid])
  }

  /** `durations`: each traffic light's default-program durations, or `None` where `int()`
      rejects one of them. */
  function DurationsOf(programs: map<string, Program>, ids: seq<string>): Option<map<string, seq<int>>>
    requires DurationsReadable(programs, ids)
  {
    if forall k | 0 <= k < |ids| :: DurationList(programs[ids[k]]).Some? then
      Some(map nid | nid in ids :: DurationList(programs[nid]).value)
    else None
  }

  /** `durations` raises exactly when some traffic light's default program has a duration
      that `int()` rejects. */
  lemma DurationsOfFails(programs: map<string, Program>, ids: seq<string>)
    requires DurationsReadable(programs, ids)
    ensures DurationsOf(programs, ids).None? <==>
            exists k, j | 0 <= k < |ids| && 0 <= j < |programs[ids[k]].phases| ::
              IsDefault(programs[ids[k]]) && PyText.ParseInt(programs[ids[k]].phases[j]["duration"]).None?
  {
    if DurationsOf(programs, ids).None? {
      var k :| 0 <= k < |ids| && DurationList(programs[ids[k]]).None?;
      var j :| 0 <= j < |programs[ids[k]].phases| && PyText.ParseInt(programs[ids[k]].phases[j]["duration"]).None?;
    }
  }

  /** `durations[nid]` lines up with `states[nid]`: both select the same program with the same
      filter over the same phase list, so they have equal length and entry j of each comes
      from phase j. */
  lemma DurationsMatchStates(programs: map<string, Program>, ids: seq<string>, nid: string)
    requires StatesReadable(programs, ids) && DurationsReadable(programs, ids)
    requires DurationsOf(programs, ids).Some?
    requires nid in ids
    ensures nid in StatesOf(programs, ids) && nid in DurationsOf(programs, ids).value
    ensures |DurationsOf(programs, ids).value[nid]| == |StatesOf(programs, ids)[nid]|
    ensures forall j | 0 <= j < |StatesOf(programs, ids)[nid]| ::
              var phase := programs[nid].phases[j];
              && StatesOf(programs, ids)[nid][j] == phase["state"]
              && Some(DurationsOf(programs, ids).value[nid][j]) == PyText.ParseInt(phase["duration"])
  {
    var k :| 0 <= k < |ids| && ids[k] == nid;
  }

  // ---------------------------------------------------------------- phases

  /** The connections `phases` keeps for node `nid`: controlled by it and carrying a link
      index (`x.get('tl') == nid and 'linkIndex' in x`). */
  predicate Controlled(c: Attrs, nid: string)
  {
    "tl" in c && c["tl"] == nid && "linkIndex" in c
  }

  /** What building the link table needs of a connection: a `from` edge and a link index
      `int()` accepts. */
  predicate LinkReadable(c: Attrs)
  {
    "from" in c && "linkIndex" in c && PyText.ParseInt(c["linkIndex"]).Some?
  }

  /** A connection's link index. */
  function LinkIndex(c: Attrs): int
    requires LinkReadable(c)
  {
    PyText.ParseInt(c["linkIndex"]).value
  }

  /** A dictionary from link index to edge id, as its entries in insertion order. */
  type Links = seq<(int, string)>

  /** No link index occurs twice. */
  predicate KeysUnique(links: Links)
  {
    forall j1, j2 | 0 <= j1 < j2 < |links| :: links[j1].0 != links[j2].0
  }

  /** `links[k] = v` on an insertion-ordered dictionary: an existing key keeps its place and
      takes the new value, a new key goes last. */
  function Put(links: Links, k: int, v: string): (r: Links)
  {
    if links == [] then [(k, v)]
    else if links[0].0 == k then [(k, v)] + links[1..]
    else [links[0]] + Put(links[1..], k, v)
  }

  /** `Put` keeps every entry under another key, holds `(k, v)`, adds at most that one entry,
      and keeps the keys unique. */
  lemma {:induction false} PutSpec(links: Links, k: int, v: string)
    ensures var r := Put(links, k, v);
            && (|r| == |links| || |r| == |links| + 1)
            && (k, v) in r
            && (forall e | e in r :: e == (k, v) || e in links)
            && (forall e | e in links && e.0 != k :: e in r)
            && (KeysUnique(links) ==> KeysUnique(r))
  {
    if links != [] {
      assert forall e | e in links && e != links[0] :: e in links[1..];
      if links[0].0 != k {
        PutSpec(links[1..], k, v);
        var rest := Put(links[1..], k, v);
        assert forall e | e in rest :: e in [links[0]] + rest;
        if KeysUnique(links) {
          assert KeysUnique(links[1..]);
          forall e | e in rest ensures e.0 != links[0].0 {
          }
        }
      }
    }
  }

  /** The entry a connection asks for: its link index and its `from` edge. */
  function Entries(conns: seq<Attrs>): Links
    requires forall i | 0 <= i < |conns| :: LinkReadable(conns[i])
  {
    seq(|conns|, i requires 0 <= i < |conns| => (LinkIndex(conns[i]), conns[i]["from"]))
  }

  /** The link indices a link table has entries for. */
  function Keys(links: Links): set<int>
  {
    set e | e in links :: e.0
  }

  /** `{int(conn['linkIndex']): conn['from'] for conn in connections}`. */
  function LinksOf(conns: seq<Attrs>): Links
    requires forall i | 0 <= i < |conns| :: LinkReadable(conns[i])
  {
    if conns == [] then []
    else
      var last := conns[|conns| - 1];
      Put(LinksOf(conns[..|conns| - 1]), LinkIndex(last), last["from"])
  }

  /** No link index occurs twice in the link table. */
  lemma {:induction false} LinksUnique(conns: seq<Attrs>)
    requires forall i | 0 <= i < |conns| :: LinkReadable(conns[i])
    ensures KeysUnique(LinksOf(conns))
  {
    if conns != [] {
      var init, last := conns[..|conns| - 1], conns[|conns| - 1];
      LinksUnique(init);
      PutSpec(LinksOf(init), LinkIndex(last), last["from"]);
    }
  }

  /** Every entry of the link table maps a connection's link index to that connection's
      `from` edge. */
  lemma {:induction false} LinksFrom(conns: seq<Attrs>)
    requires forall i | 0 <= i < |conns| :: LinkReadable(conns[i])
    ensures forall e | e in LinksOf(conns) :: e in Entries(conns)
  {
    if conns != [] {
      var init, last := conns[..|conns| - 1], conns[|conns| - 1];
      LinksFrom(init);
      PutSpec(LinksOf(init), LinkIndex(last), last["from"]);
      assert Entries(conns) == Entries(init) + [Entries(conns)[|conns| - 1]];
    }
  }

  /** Every connection's link index has an entry in the link table. */
  lemma {:induction false} LinksCover(conns: seq<Attrs>)
    requires forall i | 0 <= i < |conns| :: LinkReadable(conns[i])
    ensures forall i | 0 <= i < |conns| :: LinkIndex(conns[i]) in Keys(LinksOf(conns))
  {
    if conns != [] {
      var n := |conns|;
      var init, last := conns[..n - 1], conns[n - 1];
      LinksCover(init);
      var before := LinksOf(init);
      var links := LinksOf(conns);
      PutSpec(before, LinkIndex(last), last["from"]);
      assert (LinkIndex(last), last["from"]) in links;
      forall i | 0 <= i < n - 1 ensures LinkIndex(conns[i]) in Keys(links) {
        assert init[i] == conns[i];
        var e :| e in before && e.0 == LinkIndex(init[i]);
        if e.0 != LinkIndex(last) {
          assert e in links;
        }
      }
    }
  }

  /** `state[lnk] in ('G', 'g')`: a green light, with or without priority. */
  predicate IsGreen(c: char)
  {
    c == 'G' || c == 'g'
  }

  /** Every link index can index the state string (negative ones from the end). */
  predicate FitsState(links: Links, state: string)
  {
    forall j | 0 <= j < |links| :: -|state| <= links[j].0 < |state|
  }

  /** Every link index can index every state string. */
  predicate IndexesFit(links: Links, states: seq<string>)
  {
    forall t | 0 <= t < |states| :: FitsState(links, states[t])
  }

  /** Whether link `l` shows green in `state`. */
  predicate GreenAt(state: string, l: int)
    requires -|state| <= l < |state|
  {
    IsGreen(PyText.PyIndex(state, l))
  }

  /** `[eid for lnk, eid in links.items() if state[lnk] in ('G','g')]`. */
  function GreenEdges(links: Links, state: string): (r: seq<string>)
    requires FitsState(links, state)
  {
    if links == [] then []
    else
      var last := links[|links| - 1];
      var rest := GreenEdges(links[..|links| - 1], state);
      rest + (if GreenAt(state, last.0) then [last.1] else [])
  }

  /** The green edges are exactly the `from` edges of the links green in `state`. */
  lemma {:induction false} GreenEdgesSpec(links: Links, state: string)
    requires FitsState(links, state)
    ensures forall e | e in GreenEdges(links, state) ::
              exists j | 0 <= j < |links| :: links[j].1 == e && GreenAt(state, links[j].0)
    ensures forall j | 0 <= j < |links| && GreenAt(state, links[j].0) :: links[j].1 in GreenEdges(links, state)
  {
    if links != [] {
      var init := links[..|links| - 1];
      GreenEdgesSpec(init, state);
      assert forall j | 0 <= j < |init| :: init[j] == links[j];
    }
  }

  /** The phases one node's states make: for each state in order with some green link, the
      sorted set of the edges its green links come from. */
  function PhaseList(links: Links, states: seq<string>): seq<seq<string>>
    requires IndexesFit(links, states)
  {
    if states == [] then []
    else
      var init := states[..|states| - 1];
      assert IndexesFit(links, init) by {
        assert forall t | 0 <= t < |init| :: init[t] == states[t];
      }
      var green := GreenEdges(links, states[|states| - 1]);
      PhaseList(links, init) + (if green != [] then [PyText.SortedUnique(green)] else [])
  }

  /** A list as a dictionary from position to entry (`self._cached_phases[nid]`). */
  function Indexed(ps: seq<seq<string>>): map<int, seq<string>>
  {
    map i | 0 <= i < |ps| :: ps[i]
  }

  /** The connections `phases` keeps for node `nid`. */
  function ControlledBy(connections: seq<Attrs>, nid: string): seq<Attrs>
  {
    Seqs.Filter((c: Attrs) => Controlled(c, nid), connections)
  }

  /** What `phases` needs for node `nid`: its connections can be read, and their link
      indices can index every state string of the node. */
  predicate PhasesReadable(connections: seq<Attrs>, nid: string, states: seq<string>)
  {
    var conns := ControlledBy(connections, nid);
    && (forall i | 0 <= i < |conns| :: LinkReadable(conns[i]))
    && IndexesFit(LinksOf(conns), states)
  }

  /** What `phases` needs of each of the nodes `ids`: its states are known and readable. */
  predicate AllReadable(connections: seq<Attrs>, states: map<string, seq<string>>, ids: seq<string>)
  {
    forall nid | nid in ids :: nid in states && PhasesReadable(connections, nid, states[nid])
  }

  /** `phases[nid]` for a node with states `states`. */
  function NodePhases(connections: seq<Attrs>, nid: string, states: seq<string>): map<int, seq<string>>
    requires PhasesReadable(connections, nid, states)
  {
    Indexed(PhaseList(LinksOf(ControlledBy(connections, nid)), states))
  }

  /** One more state adds the sorted set of its green edges as a new phase when that set is
      not empty (`if components:`), and nothing otherwise. */
  lemma PhaseListSnoc(links: Links, states: seq<string>, state: string)
    requires IndexesFit(links, states) && FitsState(links, state)
    ensures IndexesFit(links, states + [state])
    ensures PhaseList(links, states + [state])
            == PhaseList(links, states)
               + (if GreenEdges(links, state) != [] then [PyText.SortedUnique(GreenEdges(links, state))] else [])
  {
    var s := states + [state];
    assert s[..|s| - 1] == states;
    assert forall t | 0 <= t < |states| :: states[t] == s[t];
  }

  /** A state has green edges exactly when one of the linked positions shows green. */
  lemma GreenEdgesEmpty(links: Links, state: string)
    requires FitsState(links, state)
    ensures GreenEdges(links, state) != [] <==> exists j | 0 <= j < |links| :: GreenAt(state, links[j].0)
  {
    GreenEdgesSpec(links, state);
    if exists j | 0 <= j < |links| :: GreenAt(state, links[j].0) {
      var j :| 0 <= j < |links| && GreenAt(state, links[j].0);
      assert links[j].1 in GreenEdges(links, state);
    } else if GreenEdges(links, state) != [] {
      assert GreenEdges(links, state)[0] in GreenEdges(links, state);
    }
  }

  /** Edge `e` is the `from` edge of a link that is green in one of `states`. */
  predicate FromGreenLink(links: Links, states: seq<string>, e: string)
    requires IndexesFit(links, states)
  {
    exists j, t | 0 <= j < |links| && 0 <= t < |states| :: links[j].1 == e && GreenAt(states[t], links[j].0)
  }

  /** A phase as `phases` builds it: non-empty, strictly ascending (so sorted and
      duplicate-free), and made of edges of links green in some state. */
  predicate GoodPhase(links: Links, states: seq<string>, p: seq<string>)
    requires IndexesFit(links, states)
  {
    && p != []
    && PyText.StrictlySorted(p)
    && forall e | e in p :: FromGreenLink(links, states, e)
  }

  /** There are no more phases than states, and every phase is a good one. */
  lemma {:induction false} PhaseListSpec(links: Links, states: seq<string>)
    requires IndexesFit(links, states)
    ensures |PhaseList(links, states)| <= |states|
    ensures forall i | 0 <= i < |PhaseList(links, states)| :: GoodPhase(links, states, PhaseList(links, states)[i])
  {
    if states != [] {
      var init, last := states[..|states| - 1], states[|states| - 1];
      PhaseListSnoc(links, init, last);
      assert init + [last] == states;
      PhaseListSpec(links, init);
      var before := PhaseList(links, init);
      forall i | 0 <= i < |before| ensures GoodPhase(links, states, before[i]) {
        GoodPhaseGrows(links, init, last, before[i]);
      }
      if GreenEdges(links, last) != [] {
        LastPhaseGood(links, init, last);
      }
    }
  }

  /** A good phase for some states stays good when one more state follows. */
  lemma GoodPhaseGrows(links: Links, init: seq<string>, last: string, p: seq<string>)
    requires IndexesFit(links, init + [last]) && IndexesFit(links, init) && GoodPhase(links, init, p)
    ensures GoodPhase(links, init + [last], p)
  {
    var states := init + [last];
    forall e | e in p ensures FromGreenLink(links, states, e) {
      var j, t :| 0 <= j < |links| && 0 <= t < |init| && links[j].1 == e && GreenAt(init[t], links[j].0);
      assert states[t] == init[t];
    }
  }

  /** The phase a state with green links adds is a good one. */
  lemma LastPhaseGood(links: Links, init: seq<string>, last: string)
    requires IndexesFit(links, init + [last]) && FitsState(links, last) && GreenEdges(links, last) != []
    ensures GoodPhase(links, init + [last], PyText.SortedUnique(GreenEdges(links, last)))
  {
    var states := init + [last];
    var green := GreenEdges(links, last);
    GreenEdgesSpec(links, last);
    var p := PyText.SortedUnique(green);
    assert green[0] in p;
    assert states[|init|] == last;
    forall e | e in p ensures FromGreenLink(links, states, e) {
      var j :| 0 <= j < |links| && links[j].1 == e && GreenAt(last, links[j].0);
    }
  }

  /** `phases[nid]`'s contract: its keys are `0 .. k-1` for some `k` no larger than the number
      of states; each value is a non-empty, strictly ascending list of edges, each the `from`
      edge of a connection controlled by `nid` with a link index. */
  lemma NodePhasesSpec(connections: seq<Attrs>, nid: string, states: seq<string>)
    requires PhasesReadable(connections, nid, states)
    ensures var m := NodePhases(connections, nid, states);
            var k := |PhaseList(LinksOf(ControlledBy(connections, nid)), states)|;
            && k <= |states|
            && (forall i :: i in m <==> 0 <= i < k)
            && forall i | i in m ::
                 && m[i] != []
                 && PyText.StrictlySorted(m[i])
                 && forall e | e in m[i] :: exists c | c in connections :: Controlled(c, nid) && "from" in c && c["from"] == e
  {
    var conns := ControlledBy(connections, nid);
    var links := LinksOf(conns);
    var ph := PhaseList(links, states);
    PhaseListSpec(links, states);
    LinksFrom(conns);
    var m := NodePhases(connections, nid, states);
    assert forall i :: i in m <==> 0 <= i < |ph|;
    forall i, e | i in m && e in m[i] ensures exists c | c in connections :: Controlled(c, nid) && "from" in c && c["from"] == e {
      var j, t :| 0 <= j < |links| && 0 <= t < |states| && links[j].1 == e && GreenAt(states[t], links[j].0);
      assert links[j] in Entries(conns);
      var ci :| 0 <= ci < |conns| && Entries(conns)[ci] == links[j];
      assert conns[ci] in conns;
      Seqs.FilterMembers((c: Attrs) => Controlled(c, nid), connections);
    }
  }

  /** Appending one phase to a list adds it under the next free index. */
  lemma IndexedSnoc(ps: seq<seq<string>>, p: seq<string>)
    ensures Indexed(ps + [p]) == Indexed(ps)[|ps| := p]
  {
    var l, r := Indexed(ps + [p]), Indexed(ps)[|ps| := p];
    assert forall i :: i in l <==> i in r;
    assert forall i | i in l :: l[i] == r[i];
  }

  /** `phases`: the phases of every traffic light, given each one's states. */
  function PhasesOf(connections: seq<Attrs>, states: map<string, seq<string>>, ids: seq<string>)
    : map<string, map<int, seq<string>>>
    requires AllReadable(connections, states, ids)
  {
    map nid | nid in ids :: NodePhases(connections, nid, states[nid])
  }

  /** An assumed link table for the intersection the `phases` docstring shows: ten links,
      two or three per approach. The node's connection records are not part of this model,
      so the table is chosen to fit the documented states and phases rather than read from
      the network files; the lemmas below hold for this table only. */
  function IntersectionLinks(): Links
  {
    [(0, "-238059324"), (1, "-238059324"), (2, "-238059328"), (3, "-238059328"),
     (4, "-238059328"), (5, "383432312"), (6, "383432312"), (7, "309265401"),
     (8, "309265401"), (9, "309265401")]
  }

  /** A state's phase is `p` when the green links come exactly from the edges of `p`. */
  lemma GreenPhase(links: Links, state: string, p: seq<string>)
    requires FitsState(links, state) && PyText.StrictlySorted(p)
    requires forall j | 0 <= j < |links| && GreenAt(state, links[j].0) :: links[j].1 in p
    requires forall e | e in p :: exists j | 0 <= j < |links| :: links[j].1 == e && GreenAt(state, links[j].0)
    ensures PyText.SortedUnique(GreenEdges(links, state)) == p
  {
    var g := GreenEdges(links, state);
    GreenEdgesSpec(links, state);
    PyText.StrictlySortedUnique(PyText.SortedUnique(g), p);
  }

  /** Handling one more traffic light adds its phases under its id. */
  lemma PhasesOfSnoc(connections: seq<Attrs>, states: map<string, seq<string>>, ids: seq<string>, nid: string)
    requires AllReadable(connections, states, ids + [nid])
    ensures AllReadable(connections, states, ids)
    ensures PhasesOf(connections, states, ids + [nid])
            == PhasesOf(connections, states, ids)[nid := NodePhases(connections, nid, states[nid])]
  {
    assert forall n | n in ids :: n in ids + [nid];
  }

  /** A green state followed by a yellow one adds one phase, that of the green state. */
  lemma GreenThenYellow(links: Links, states: seq<string>, g: string, y: string)
    requires IndexesFit(links, states) && FitsState(links, g) && FitsState(links, y)
    requires GreenEdges(links, g) != [] && GreenEdges(links, y) == []
    ensures IndexesFit(links, states + [g, y])
    ensures PhaseList(links, states + [g, y]) == PhaseList(links, states) + [PyText.SortedUnique(GreenEdges(links, g))]
  {
    assert states + [g, y] == states + [g] + [y];
    PhaseListSnoc(links, states, g);
    PhaseListSnoc(links, states + [g], y);
  }

  /** A green state, a yellow one, a green one and a yellow one give two phases, numbered 0
      and 1 in state order. */
  lemma GreenYellowCycle(links: Links, s0: string, s1: string, s2: string, s3: string)
    requires FitsState(links, s0) && FitsState(links, s1) && FitsState(links, s2) && FitsState(links, s3)
    requires GreenEdges(links, s0) != [] && GreenEdges(links, s1) == []
    requires GreenEdges(links, s2) != [] && GreenEdges(links, s3) == []
    ensures IndexesFit(links, [s0, s1, s2, s3])
    ensures Indexed(PhaseList(links, [s0, s1, s2, s3]))
            == map[0 := PyText.SortedUnique(GreenEdges(links, s0)), 1 := PyText.SortedUnique(GreenEdges(links, s2))]
  {
    var p0, p2 := PyText.SortedUnique(GreenEdges(links, s0)), PyText.SortedUnique(GreenEdges(links, s2));
    assert [] + [s0, s1] == [s0, s1];
    assert [s0, s1] + [s2, s3] == [s0, s1, s2, s3];
    GreenThenYellow(links, [], s0, s1);
    GreenThenYellow(links, [s0, s1], s2, s3);
    IndexedSnoc([p0], p2);
    IndexedSnoc([], p0);
  }

  /** Every link of the intersection indexes a ten-character state. */
  lemma IntersectionFits(state: string)
    requires |state| == 10
    ensures FitsState(IntersectionLinks(), state)
  {
    var links := IntersectionLinks();
    assert forall j | 0 <= j < |links| :: 0 <= links[j].0 < 10;
  }

  /** `GGrrrGGrrr` gives the phase of approaches `-238059324` and `383432312`. */
  lemma IntersectionFirstGreen()
    ensures FitsState(IntersectionLinks(), "GGrrrGGrrr")
    ensures GreenEdges(IntersectionLinks(), "GGrrrGGrrr") != []
    ensures PyText.SortedUnique(GreenEdges(IntersectionLinks(), "GGrrrGGrrr")) == ["-238059324", "383432312"]
  {
    var links, state := IntersectionLinks(), "GGrrrGGrrr";
    IntersectionFits(state);
    assert GreenAt(state, links[0].0) && GreenAt(state, links[5].0);
    GreenPhase(links, state, ["-238059324", "383432312"]);
  }

  /** `rrGGGrrGGG` gives the phase of approaches `-238059328` and `309265401`. */
  lemma IntersectionSecondGreen()
    ensures FitsState(IntersectionLinks(), "rrGGGrrGGG")
    ensures GreenEdges(IntersectionLinks(), "rrGGGrrGGG") != []
    ensures PyText.SortedUnique(GreenEdges(IntersectionLinks(), "rrGGGrrGGG")) == ["-238059328", "309265401"]
  {
    var links, state := IntersectionLinks(), "rrGGGrrGGG";
    IntersectionFits(state);
    assert GreenAt(state, links[2].0) && GreenAt(state, links[7].0);
    GreenPhase(links, state, ["-238059328", "309265401"]);
  }

  /** A state with no `G` or `g` gives no phase. */
  lemma NoGreen(links: Links, state: string)
    requires FitsState(links, state)
    requires forall c | c in state :: !IsGreen(c)
    ensures GreenEdges(links, state) == []
  {
    GreenEdgesEmpty(links, state);
    forall j | 0 <= j < |links| ensures !GreenAt(state, links[j].0) {
      assert PyText.PyIndex(state, links[j].0) in state;
    }
  }

  /** The documented intersection `247123161`: of its four states, the two green ones each
      make a phase and the two yellow ones none, giving phases 0 and 1. */
  lemma IntersectionPhases()
    ensures var states := ["GGrrrGGrrr", "yyrrryyrrr", "rrGGGrrGGG", "rryyyrryyy"];
            && IndexesFit(IntersectionLinks(), states)
            && Indexed(PhaseList(IntersectionLinks(), states))
               == map[0 := ["-238059324", "383432312"], 1 := ["-238059328", "309265401"]]
  {
    IntersectionFirstGreen();
    IntersectionSecondGreen();
    IntersectionFits("yyrrryyrrr");
    IntersectionFits("rryyyrryyy");
    NoGreen(IntersectionLinks(), "yyrrryyrrr");
    NoGreen(IntersectionLinks(), "rryyyrryyy");
    GreenYellowCycle(IntersectionLinks(), "GGrrrGGrrr", "yyrrryyrrr", "rrGGGrrGGG", "rryyyrryyy");
  }

  // ---------------------------------------------------------------- the network object

  /** A network read from SUMO's files: its node, edge and connection records, the programs
      its traffic-light registry holds (`traffic_lights.get_properties()`), and a cache field
      per derived view. */
  class Network {
    const nodes: seq<Attrs>
    const edges: seq<Attrs>
    const connections: seq<Attrs>
    const programs: map<string, Program>

    /** `cached_tls_ids`: written by `tls_ids` but never read, since the cache test looks for
        `_cached_tls_ids`. */
    var cachedTlsIds: Option<seq<string>>
    var cachedApproaches: Option<map<string, seq<string>>>
    var cachedStates: Option<map<string, seq<string>>>
    var cachedDurations: Option<map<string, seq<int>>>
    var cachedPhases: Option<map<string, map<int, seq<string>>>>

    /** Every filled cache holds the value its view derives from the records. */
    ghost predicate Valid()
      reads this
    {
      && (cachedTlsIds.Some? ==> NodesReadable(nodes) && cachedTlsIds.value == TlsIdsOf(nodes))
      && (cachedApproaches.Some? ==>
            && NodesReadable(nodes) && EdgesReadable(edges, TlsIdsOf(nodes))
            && cachedApproaches.value == ApproachesOf(edges, TlsIdsOf(nodes)))
      && (cachedStates.Some? ==>
            && NodesReadable(nodes) && StatesReadable(programs, TlsIdsOf(nodes))
            && cachedStates.value == StatesOf(programs, TlsIdsOf(nodes)))
      && (cachedDurations.Some? ==>
            && NodesReadable(nodes) && DurationsReadable(programs, TlsIdsOf(nodes))
            && DurationsOf(programs, TlsIdsOf(nodes)) == cachedDurations)
      && (cachedPhases.Some? ==>
            && NodesReadable(nodes) && StatesReadable(programs, TlsIdsOf(nodes))
            && AllPhasesReadable()
            && cachedPhases.value == PhasesOf(connections, StatesOf(programs, TlsIdsOf(nodes)), TlsIdsOf(nodes)))
    }

    /** What `phases` needs of every traffic light. */
    ghost predicate AllPhasesReadable()
      requires NodesReadable(nodes) && StatesReadable(programs, TlsIdsOf(nodes))
      reads this
    {
      var ids := TlsIdsOf(nodes);
      AllReadable(connections, StatesOf(programs, ids), ids)
    }

    constructor (nodes: seq<Attrs>, edges: seq<Attrs>, connections: seq<Attrs>, programs: map<string, Program>)
      ensures this.nodes == nodes && this.edges == edges && this.connections == connections
      ensures this.programs == programs
      ensures cachedTlsIds.None? && cachedApproaches.None? && cachedStates.None?
      ensures cachedDurations.None? && cachedPhases.None?
      ensures Valid()
    {
      this.nodes := nodes;
      this.edges := edges;
      this.connections := connections;
      this.programs := programs;
      cachedTlsIds := None;
      cachedApproaches := None;
      cachedStates := None;
      cachedDurations := None;
      cachedPhases := None;
    }

    /** `tls_ids`: recomputed on every access, so it always agrees with the node records. */
    method TlsIds() returns (r: seq<string>)
      requires Valid() && NodesReadable(nodes)
      modifies this
      ensures Valid()
      ensures r == TlsIdsOf(nodes) && cachedTlsIds == Some(r)
      ensures cachedApproaches == old(cachedApproaches) && cachedStates == old(cachedStates)
      ensures cachedDurations == old(cachedDurations) && cachedPhases == old(cachedPhases)
    {
      cachedTlsIds := Some(TlsIdsOf(nodes));
      r := cachedTlsIds.value;
    }

    /** `approaches`: computed on the first access, returned from the cache afterwards. */
    method Approaches() returns (r: map<string, seq<string>>)
      requires Valid() && NodesReadable(nodes) && EdgesReadable(edges, TlsIdsOf(nodes))
      modifies this
      ensures Valid()
      ensures r == ApproachesOf(edges, TlsIdsOf(nodes)) && cachedApproaches == Some(r)
      ensures old(cachedApproaches).Some? ==> r == old(cachedApproaches).value
      ensures cachedTlsIds == (if old(cachedApproaches).Some? then old(cachedTlsIds) else Some(TlsIdsOf(nodes)))
      ensures cachedStates == old(cachedStates) && cachedDurations == old(cachedDurations)
      ensures cachedPhases == old(cachedPhases)
    {
      if cachedApproaches.None? {
        var ids := TlsIds();
        cachedApproaches := Some(ApproachesOf(edges, ids));
      }
      r := cachedApproaches.value;
    }

    /** `states`: computed on the first access, returned from the cache afterwards. */
    method States() returns (r: map<string, seq<string>>)
      requires Valid() && NodesReadable(nodes) && StatesReadable(programs, TlsIdsOf(nodes))
      modifies this
      ensures Valid()
      ensures r == StatesOf(programs, TlsIdsOf(nodes)) && cachedStates == Some(r)
      ensures old(cachedStates).Some? ==> r == old(cachedStates).value
      ensures cachedTlsIds == (if old(cachedStates).Some? then old(cachedTlsIds) else Some(TlsIdsOf(nodes)))
      ensures cachedApproaches == old(cachedApproaches) && cachedDurations == old(cachedDurations)
      ensures cachedPhases == old(cachedPhases)
    {
      if cachedStates.None? {
        var ids := TlsIds();
        cachedStates := Some(StatesOf(programs, ids));
      }
      r := cachedStates.value;
    }

    /** `durations`: computed on the first access, returned from the cache afterwards; an
        access that raises leaves the cache empty. */
    method Durations() returns (r: Option<map<string, seq<int>>>)
      requires Valid() && NodesReadable(nodes) && DurationsReadable(programs, TlsIdsOf(nodes))
      modifies this
      ensures Valid()
      ensures r == DurationsOf(programs, TlsIdsOf(nodes)) && cachedDurations == r
      ensures old(cachedDurations).Some? ==> r == old(cachedDurations)
      ensures cachedTlsIds == (if old(cachedDurations).Some? then old(cachedTlsIds) else Some(TlsIdsOf(nodes)))
      ensures cachedApproaches == old(cachedApproaches) && cachedStates == old(cachedStates)
      ensures cachedPhases == old(cachedPhases)
    {
      if cachedDurations.None? {
        var ids := TlsIds();
        cachedDurations := DurationsOf(programs, ids);
      }
      r := cachedDurations;
    }

    /** `phases`: on the first access, for every traffic light, number the green phases its
        states make, in state order; returned from the cache afterwards. */
    method Phases() returns (r: map<string, map<int, seq<string>>>)
      requires Valid() && NodesReadable(nodes) && StatesReadable(programs, TlsIdsOf(nodes))
      requires AllPhasesReadable()
      modifies this
      ensures Valid()
      ensures r == PhasesOf(connections, StatesOf(programs, TlsIdsOf(nodes)), TlsIdsOf(nodes))
      ensures cachedPhases == Some(r)
      ensures old(cachedPhases).Some? ==> r == old(cachedPhases).value
      ensures cachedTlsIds == (if old(cachedPhases).Some? then old(cachedTlsIds) else Some(TlsIdsOf(nodes)))
      ensures cachedStates
              == (if old(cachedPhases).Some? || TlsIdsOf(nodes) == [] then old(cachedStates)
                  else Some(StatesOf(programs, TlsIdsOf(nodes))))
      ensures cachedApproaches == old(cachedApproaches) && cachedDurations == old(cachedDurations)
    {
      if cachedPhases.None? {
        var ids := TlsIds();
        var phases: map<string, map<int, seq<string>>> := map[];
        if ids != [] {
          // `self.states` is first read inside the loop, so no traffic light, no read.
          var states := States();
          phases := NodesLoop(ids, states);
        }
        cachedPhases := Some(phases);
      }
      r := cachedPhases.value;
    }

    /** The loop of `phases` over the traffic lights `ids`, whose states `states` holds: each
        one's phases under its id. */
    method NodesLoop(ids: seq<string>, states: map<string, seq<string>>) returns (phases: map<string, map<int, seq<string>>>)
      requires AllReadable(connections, states, ids)
      ensures phases == PhasesOf(connections, states, ids)
    {
      phases := map[];
      var k := 0;
      while k < |ids|
        invariant 0 <= k <= |ids|
        invariant AllReadable(connections, states, ids[..k])
        invariant phases == PhasesOf(connections, states, ids[..k])
      {
        var nid := ids[k];
        assert ids[..k + 1] == ids[..k] + [nid];
        var node := NodeLoop(nid, states[nid]);
        PhasesOfSnoc(connections, states, ids[..k], nid);
        phases := phases[nid := node];
        k := k + 1;
      }
      assert ids[..k] == ids;
    }

    /** One traffic light's pass of the `phases` loop: the link table of the connections it
        controls, then one phase, under the next index `i`, per state with a green link. */
    method NodeLoop(nid: string, states: seq<string>) returns (node: map<int, seq<string>>)
      requires PhasesReadable(connections, nid, states)
      ensures node == NodePhases(connections, nid, states)
    {
      var conns := Seqs.Filter((c: Attrs) => Controlled(c, nid), connections);
      var links := LinksOf(conns);
      var i := 0;
      node := map[];
      var t := 0;
      while t < |states|
        invariant 0 <= t <= |states|
        invariant IndexesFit(links, states[..t])
        invariant i == |PhaseList(links, states[..t])|
        invariant node == Indexed(PhaseList(links, states[..t]))
      {
        var state := states[t];
        assert states[..t + 1] == states[..t] + [state];
        var components := GreenEdges(links, state);
        PhaseListSnoc(links, states[..t], state);
        IndexedSnoc(PhaseList(links, states[..t]), PyText.SortedUnique(components));
        if components != [] {
          node := node[i := PyText.SortedUnique(components)];
          i := i + 1;
        }
        t := t + 1;
      }
      assert states[..t] == states;
    }
  }

  // ---------------------------------------------------------------- load

  /** Why reading the horizon off a route file name fails: fewer than four dot-separated
      fields (`IndexError`), or a field `int()` rejects (`ValueError`). */
  datatype HorizonError = TooFewFields | NotANumber(field: string)

  /** `int(route_path.split('.')[-4])`. */
  function Horizon(routePath: string): Result<int, HorizonError>
  {
    var fields := PyText.Split(routePath, '.');
    if |fields| < 4 then Failure(TooFewFields)
    else
      var field := PyText.PyIndex(fields, -4);
      match PyText.ParseInt(field)
      case None => Failure(NotANumber(field))
      case Some(h) => Success(h)
  }

  /** A route file name whose dot-separated fields have the decimal text of a horizon fourth
      from the end gives back that horizon; one with fewer than four fields has none. */
  lemma HorizonRoundTrip(fields: seq<string>, horizon: int)
    requires forall f | f in fields :: '.' !in f
    ensures |fields| < 4 && fields != [] ==> Horizon(PyText.Join(fields, '.')) == Failure(TooFewFields)
    ensures |fields| >= 4 && fields[|fields| - 4] == PyText.IntToString(horizon) ==>
              Horizon(PyText.Join(fields, '.')) == Success(horizon)
  {
    if fields != [] {
      PyText.SplitJoin(fields, '.');
    }
    PyText.ParseIntRoundTrip(horizon);
  }
}

/** The scenario wrapper's data layer: where a network's files live, how elements are pulled
    out of them, how routes become a per-origin distribution and how edges are summarised
    from their lanes. */
module Scenarios {
  import opened Wrappers
  import opened Records
  import PyText
  import Seqs

  // ---------------------------------------------------------------- file paths

  /** `DIR`: the networks directory below the `ILURL_HOME` environment variable. */
  function NetworksDir(home: string): string
  {
    home + "/data/networks/"
  }

  /** `os.path.join(a, b)` for two components: an absolute `b` discards `a`. */
  function PathJoin(a: string, b: string): string
  {
    if b != [] && b[0] == '/' then b
    else if a == [] || a[|a| - 1] == '/' then a + b
    else a + "/" + b
  }

  /** `get_path(network_id, file_type)`. */
  function GetPath(home: string, networkId: string, fileType: string): (p: string)
    ensures networkId != [] && networkId[0] != '/' ==>
      p == NetworksDir(home) + networkId + "/" + networkId + "." + fileType + ".xml"
    ensures networkId == [] || networkId[0] == '/' ==>
      p == networkId + "/" + networkId + "." + fileType + ".xml"
  {
    PathJoin(NetworksDir(home), networkId + "/" + networkId + "." + fileType + ".xml")
  }

  /** One network's files of different types never share a path. */
  lemma GetPathSeparatesFileTypes(home: string, networkId: string, t1: string, t2: string)
    requires GetPath(home, networkId, t1) == GetPath(home, networkId, t2)
    ensures t1 == t2
  {
    var front := if networkId != [] && networkId[0] != '/'
                 then NetworksDir(home) + networkId + "/" + networkId + "."
                 else networkId + "/" + networkId + ".";
    var p1, p2 := GetPath(home, networkId, t1), GetPath(home, networkId, t2);
    assert p1 == front + t1 + ".xml";
    assert p2 == front + t2 + ".xml";
    assert t1 == p1[|front|..|p1| - 4];
    assert t2 == p2[|front|..|p2| - 4];
  }

  // ---------------------------------------------------------------- get_generic_element

  /** Whether an element survives the `ignore` filter (`ignore not in elem.attrib`). */
  predicate NotIgnored(e: Element, ignore: Option<string>)
  {
    ignore.None? || ignore.value !in e.attrib
  }

  /** The found elements that carry no `ignore` attribute, in document order. */
  function Kept(found: seq<Element>, ignore: Option<string>): seq<Element>
  {
    if found == [] then []
    else
      var last := found[|found| - 1];
      Kept(found[..|found| - 1], ignore) + (if NotIgnored(last, ignore) then [last] else [])
  }

  /** `Kept` is the filter of the found elements by `NotIgnored`. */
  lemma {:induction false} KeptIsFilter(found: seq<Element>, ignore: Option<string>)
    ensures Kept(found, ignore) == Seqs.Filter((e: Element) => NotIgnored(e, ignore), found)
  {
    if found != [] {
      var init := found[..|found| - 1];
      KeptIsFilter(init, ignore);
      Seqs.FilterSnoc((e: Element) => NotIgnored(e, ignore), init, found[|found| - 1]);
      assert init + [found[|found| - 1]] == found;
    }
  }

  /** The attribute maps of some elements, in order. */
  function Attribs(es: seq<Element>): seq<Attrs>
  {
    seq(|es|, i requires 0 <= i < |es| => es[i].attrib)
  }

  /** The entry emitted for one kept element. */
  function Emit(e: Element, key: Option<string>, childKey: Option<string>): Item
  {
    if key.Some? && key.value in e.attrib then Key(e.attrib[key.value])
    else if childKey.Some? then
      Dict(Lift(e.attrib)[childKey.value + "s" := Rows(Attribs(FindAll(e, childKey.value)))])
    else Dict(Lift(e.attrib))
  }

  /** The entries emitted for a run of kept elements, one each, in order. */
  function EmitAll(kept: seq<Element>, key: Option<string>, childKey: Option<string>): seq<Item>
  {
    if kept == [] then []
    else EmitAll(kept[..|kept| - 1], key, childKey) + [Emit(kept[|kept| - 1], key, childKey)]
  }

  lemma {:induction false} EmitAllAt(kept: seq<Element>, key: Option<string>, childKey: Option<string>)
    ensures |EmitAll(kept, key, childKey)| == |kept|
    ensures forall i | 0 <= i < |kept| :: EmitAll(kept, key, childKey)[i] == Emit(kept[i], key, childKey)
  {
    if kept != [] {
      EmitAllAt(kept[..|kept| - 1], key, childKey);
    }
  }

  /** What `get_generic_element(network_id, target, file_type, ignore, key, child_key)`
      returns; a missing file yields the empty list. */
  function GenericElements(fs: FileSystem, home: string, networkId: string, target: string,
                           fileType: string, ignore: Option<string>, key: Option<string>,
                           childKey: Option<string>): (r: seq<Item>)
    ensures GetPath(home, networkId, fileType) !in fs ==> r == []
  {
    var path := GetPath(home, networkId, fileType);
    if path !in fs then []
    else
      EmitAll(Kept(FindAll(fs[path], target), ignore), key, childKey)
  }

  /** The extractor as the source runs it: a loop that appends one entry per kept element and,
      with a child tag, then attaches the children's attribute maps to the entry just appended.
      A key together with a child tag would subscript a string, so callers never pass both. */
  method GetGenericElement(fs: FileSystem, home: string, networkId: string, target: string,
                           fileType: string, ignore: Option<string>, key: Option<string>,
                           childKey: Option<string>) returns (elements: seq<Item>)
    requires key.None? || childKey.None?
    ensures elements == GenericElements(fs, home, networkId, target, fileType, ignore, key, childKey)
  {
    var path := GetPath(home, networkId, fileType);
    elements := [];
    if path in fs {
      var found := FindAll(fs[path], target);
      ghost var kept: seq<Element> := [];
      var n := 0;
      while n < |found|
        invariant 0 <= n <= |found|
        invariant kept == Kept(found[..n], ignore)
        invariant elements == EmitAll(kept, key, childKey)
      {
        var elem := found[n];
        KeptSnoc(found, n, ignore);
        if ignore.None? || ignore.value !in elem.attrib {
          EmitAllSnoc(kept, elem, key, childKey);
          elements := AppendEntry(elements, elem, key, childKey);
          kept := kept + [elem];
        }
        n := n + 1;
      }
      assert found[..n] == found;
    }
  }

  /** The loop body for a kept element: append its key value or its attribute map, then,
      with a child tag, attach the children's attribute maps to the entry just appended. */
  method AppendEntry(elements: seq<Item>, elem: Element, key: Option<string>, childKey: Option<string>)
    returns (r: seq<Item>)
    requires key.None? || childKey.None?
    ensures r == elements + [Emit(elem, key, childKey)]
  {
    r := elements;
    if key.Some? && key.value in elem.attrib {
      r := r + [Key(elem.attrib[key.value])];
    } else {
      r := r + [Dict(Lift(elem.attrib))];
    }
    if childKey.Some? {
      var last := r[|r| - 1];
      var children := Attribs(FindAll(elem, childKey.value));
      r := r[|r| - 1 := Dict(last.fields[childKey.value + "s" := Rows(children)])];
    }
  }

  lemma KeptSnoc(found: seq<Element>, n: nat, ignore: Option<string>)
    requires n < |found|
    ensures Kept(found[..n + 1], ignore) == Kept(found[..n], ignore) + (if NotIgnored(found[n], ignore) then [found[n]] else [])
  {
    assert found[..n + 1][..n] == found[..n];
  }

  lemma EmitAllSnoc(kept: seq<Element>, e: Element, key: Option<string>, childKey: Option<string>)
    ensures EmitAll(kept + [e], key, childKey) == EmitAll(kept, key, childKey) + [Emit(e, key, childKey)]
  {
    assert (kept + [e])[..|kept|] == kept;
  }

  /** What the entry emitted for element `e` looks like: a bare value exactly when the key
      attribute is present; otherwise the element's attribute map, plus the children's
      attribute maps under `child_key + 's'` when a child tag is given. */
  predicate EntryShape(it: Item, e: Element, key: Option<string>, childKey: Option<string>)
  {
    && (it.Key? <==> key.Some? && key.value in e.attrib)
    && (it.Key? ==> it.key == e.attrib[key.value])
    && (it.Dict? ==>
          && (forall a | a in e.attrib && (childKey.None? || a != childKey.value + "s") ::
                a in it.fields && it.fields[a] == Text(e.attrib[a]))
          && (childKey.None? ==> it.fields.Keys == e.attrib.Keys)
          && (childKey.Some? ==>
                && it.fields.Keys == e.attrib.Keys + {childKey.value + "s"}
                && it.fields[childKey.value + "s"] == Rows(Attribs(FindAll(e, childKey.value)))))
  }

  lemma EmitShape(e: Element, key: Option<string>, childKey: Option<string>)
    ensures EntryShape(Emit(e, key, childKey), e, key, childKey)
  {
  }

  /** The elements kept are those found without the `ignore` attribute, in document order. */
  lemma KeptSpec(found: seq<Element>, ignore: Option<string>)
    ensures Seqs.Embeds(Kept(found, ignore), found)
    ensures forall e | e in Kept(found, ignore) :: e in found && NotIgnored(e, ignore)
    ensures forall i | 0 <= i < |found| && NotIgnored(found[i], ignore) :: found[i] in Kept(found, ignore)
  {
    KeptIsFilter(found, ignore);
    Seqs.FilterEmbeds((e: Element) => NotIgnored(e, ignore), found);
    Seqs.FilterMembers((e: Element) => NotIgnored(e, ignore), found);
  }

  /** The extractor's contract: one entry per element found and not ignored, in document
      order, each shaped as `EntryShape` says. */
  lemma GenericElementsSpec(fs: FileSystem, home: string, networkId: string, target: string,
                            fileType: string, ignore: Option<string>, key: Option<string>,
                            childKey: Option<string>)
    requires GetPath(home, networkId, fileType) in fs
    ensures var found := FindAll(fs[GetPath(home, networkId, fileType)], target);
            var kept := Kept(found, ignore);
            var r := GenericElements(fs, home, networkId, target, fileType, ignore, key, childKey);
            && |r| == |kept|
            && Seqs.Embeds(kept, found)
            && (forall e | e in kept :: e in found && NotIgnored(e, ignore))
            && (forall i | 0 <= i < |found| && NotIgnored(found[i], ignore) :: found[i] in kept)
            && (forall i | 0 <= i < |r| :: EntryShape(r[i], kept[i], key, childKey))
  {
    var found := FindAll(fs[GetPath(home, networkId, fileType)], target);
    var kept := Kept(found, ignore);
    KeptSpec(found, ignore);
    EmitAllAt(kept, key, childKey);
    forall i | 0 <= i < |kept| ensures EntryShape(EmitAll(kept, key, childKey)[i], kept[i], key, childKey) {
      EmitShape(kept[i], key, childKey);
    }
  }

  // ---------------------------------------------------------------- get_routes

  /** A route, as its list of edges, with its probability of being drawn among the routes
      that leave the same edge. */
  type Weighted = (seq<string>, real)

  /** `set(routes)` fails on an entry that is a dictionary, which is what the extractor
      returns for a `route` element without an `edges` attribute. */
  datatype RouteError = UnhashableDict

  /** The route strings of the extractor's entries, failing on the first dictionary. */
  function RouteStrings(items: seq<Item>): (r: Result<seq<string>, RouteError>)
    ensures r.Success? <==> forall i | 0 <= i < |items| :: items[i].Key?
    ensures r.Success? ==>
      |r.value| == |items| && forall i | 0 <= i < |items| :: r.value[i] == items[i].key
  {
    if items == [] then Success([])
    else if items[0].Dict? then Failure(UnhashableDict)
    else
      match RouteStrings(items[1..])
      case Failure(e) => Failure(e)
      case Success(rest) => Success([items[0].key] + rest)
  }

  /** `[rou.split(' ') for rou in set(routes)]`: each distinct route string once, split into
      its edges. Python leaves the order of a set unspecified; the model takes the order of
      first appearance. */
  function Unique(strings: seq<string>): seq<seq<string>>
  {
    var d := Seqs.Dedup(strings);
    seq(|d|, i requires 0 <= i < |d| => PyText.Split(d[i], ' '))
  }

  /** Whether a route leaves from edge `k`. */
  predicate StartsAt(r: seq<string>, k: string)
  {
    r != [] && r[0] == k
  }

  /** `{rou[0] for rou in routes}`: the edges routes leave from. */
  function Origins(routes: seq<seq<string>>): set<string>
  {
    set r | r in routes && r != [] :: r[0]
  }

  /** `[r for r in routes if k == r[0]]`. */
  function Group(routes: seq<seq<string>>, k: string): seq<seq<string>>
  {
    Seqs.Filter((r: seq<string>) => StartsAt(r, k), routes)
  }

  /** `[(r, 1 / len(rou)) for r in rou]`: every route of a group equally likely. */
  function Equiprobable(g: seq<seq<string>>): seq<Weighted>
  {
    seq(|g|, i requires 0 <= i < |g| => (g[i], 1.0 / (|g| as real)))
  }

  /** The route table: for each edge some route leaves from, its routes with their probabilities. */
  function Distribute(routes: seq<seq<string>>): map<string, seq<Weighted>>
  {
    map k | k in Origins(routes) :: Equiprobable(Group(routes, k))
  }

  /** What `get_routes` makes of the extractor's entries. */
  function Routes(items: seq<Item>): (r: Result<map<string, seq<Weighted>>, RouteError>)
    ensures r.Failure? <==> exists i | 0 <= i < |items| :: items[i].Dict?
  {
    match RouteStrings(items)
    case Failure(e) => Failure(e)
    case Success(strings) => Success(Distribute(Unique(strings)))
  }

  /** `get_routes(network_id)`: the `edges` attribute of every `vehicle/route` element of the
      network's route file, distributed by first edge. */
  function GetRoutes(fs: FileSystem, home: string, networkId: string)
    : Result<map<string, seq<Weighted>>, RouteError>
  {
    Routes(GenericElements(fs, home, networkId, "vehicle/route", "rou", None, Some("edges"), None))
  }

  /** The sum of the probabilities of a list of weighted routes. */
  function Total(ws: seq<Weighted>): real
  {
    if ws == [] then 0.0 else Total(ws[..|ws| - 1]) + ws[|ws| - 1].1
  }

  lemma {:induction false} TotalOfEqual(ws: seq<Weighted>, p: real)
    requires forall i | 0 <= i < |ws| :: ws[i].1 == p
    ensures Total(ws) == (|ws| as real) * p
  {
    if ws != [] {
      TotalOfEqual(ws[..|ws| - 1], p);
    }
  }

  /** A group's probabilities add up to one. */
  lemma EquiprobableTotal(g: seq<seq<string>>)
    requires g != []
    ensures Total(Equiprobable(g)) == 1.0
  {
    var n := |g| as real;
    TotalOfEqual(Equiprobable(g), 1.0 / n);
    assert n * (1.0 / n) == 1.0;
  }

  /** The distinct route strings become distinct routes, and every route string is among them. */
  lemma UniqueSpec(strings: seq<string>)
    ensures Seqs.NoDup(Unique(strings))
    ensures forall i | 0 <= i < |strings| :: PyText.Split(strings[i], ' ') in Unique(strings)
    ensures forall r | r in Unique(strings) :: exists i | 0 <= i < |strings| :: r == PyText.Split(strings[i], ' ')
  {
    var d := Seqs.Dedup(strings);
    var u := Unique(strings);
    Seqs.DedupSpec(strings);
    forall i, j | 0 <= i < j < |u| ensures u[i] != u[j] {
      if u[i] == u[j] {
        PyText.SplitInjective(d[i], d[j], ' ');
      }
    }
    forall i | 0 <= i < |strings| ensures PyText.Split(strings[i], ' ') in u {
      var j := Seqs.First(d, strings[i]);
      assert u[j] == PyText.Split(strings[i], ' ');
    }
    forall r | r in u ensures exists i | 0 <= i < |strings| :: r == PyText.Split(strings[i], ' ') {
      var j :| 0 <= j < |u| && u[j] == r;
      var i := Seqs.First(strings, d[j]);
      assert r == PyText.Split(strings[i], ' ');
    }
  }

  /** What a group of the route table must be: non-empty, only routes from `routes` that
      leave from `k`, none twice, each with probability 1/n, adding up to one. */
  predicate GroupOf(g: seq<Weighted>, k: string, routes: seq<seq<string>>)
  {
    && g != []
    && Total(g) == 1.0
    && (forall j | 0 <= j < |g| :: StartsAt(g[j].0, k) && g[j].0 in routes && g[j].1 == 1.0 / (|g| as real))
    && (forall j1, j2 | 0 <= j1 < j2 < |g| :: g[j1].0 != g[j2].0)
  }

  lemma GroupOfWiden(g: seq<Weighted>, k: string, a: seq<seq<string>>, b: seq<seq<string>>)
    requires GroupOf(g, k, a)
    requires forall r | r in a :: r in b
    ensures GroupOf(g, k, b)
  {
  }

  /** The group of one first edge. */
  lemma DistributeGroup(routes: seq<seq<string>>, k: string)
    requires Seqs.NoDup(routes)
    requires k in Origins(routes)
    ensures GroupOf(Distribute(routes)[k], k, routes)
  {
    var r :| r in routes && r != [] && r[0] == k;
    var g := Group(routes, k);
    GroupMembers(routes, k);
    assert r in g;
    EquiprobableTotal(g);
    Seqs.FilterNoDup((r: seq<string>) => StartsAt(r, k), routes);
  }

  /** A group holds exactly the routes that leave from its edge. */
  lemma GroupMembers(routes: seq<seq<string>>, k: string)
    ensures forall r | r in Group(routes, k) :: r in routes && StartsAt(r, k)
    ensures forall r | r in routes && StartsAt(r, k) :: r in Group(routes, k)
  {
    Seqs.FilterMembers((r: seq<string>) => StartsAt(r, k), routes);
    forall r | r in routes && StartsAt(r, k) ensures r in Group(routes, k) {
      var i :| 0 <= i < |routes| && routes[i] == r;
    }
  }

  /** Every route sits in the group of its first edge. */
  lemma DistributePlaces(routes: seq<seq<string>>, r: seq<string>)
    requires r in routes && r != []
    ensures r[0] in Distribute(routes)
    ensures exists j | 0 <= j < |Distribute(routes)[r[0]]| :: Distribute(routes)[r[0]][j].0 == r
  {
    var g := Group(routes, r[0]);
    GroupMembers(routes, r[0]);
    assert r in g;
    var j :| 0 <= j < |g| && g[j] == r;
    assert Equiprobable(g)[j].0 == r;
  }

  /** The entries' route strings split into edge lists (a dictionary entry has none). */
  function EdgeLists(items: seq<Item>): seq<seq<string>>
  {
    seq(|items|, i requires 0 <= i < |items| => if items[i].Key? then PyText.Split(items[i].key, ' ') else [])
  }

  /** The route table built from distinct route strings: its keys are the first edges of the
      routes, each key's group is as `GroupOf` says, and every route lands in the group of its
      first edge (and, since a group holds only routes leaving from its key, in no other). */
  lemma {:induction false} TableSpec(strings: seq<string>, lists: seq<seq<string>>)
    requires |lists| == |strings|
    requires forall i | 0 <= i < |strings| :: lists[i] == PyText.Split(strings[i], ' ')
    ensures var m := Distribute(Unique(strings));
            && (forall k | k in m :: exists r | r in lists :: StartsAt(r, k))
            && (forall k | k in m :: GroupOf(m[k], k, lists))
            && (forall r | r in lists ::
                  r != [] && r[0] in m && exists j | 0 <= j < |m[r[0]]| :: m[r[0]][j].0 == r)
  {
    var routes := Unique(strings);
    UniqueSpec(strings);
    var m: map<string, seq<Weighted>> := Distribute(routes);
    forall r | r in routes ensures r in lists {
      var i :| 0 <= i < |strings| && r == PyText.Split(strings[i], ' ');
      assert lists[i] == r;
    }
    forall k | k in m ensures (exists r | r in lists :: StartsAt(r, k)) && GroupOf(m[k], k, lists) {
      DistributeGroup(routes, k);
      GroupOfWiden(m[k], k, routes, lists);
    }
    forall r | r in lists ensures r != [] && r[0] in m && exists j | 0 <= j < |m[r[0]]| :: m[r[0]][j].0 == r {
      var i :| 0 <= i < |lists| && lists[i] == r;
      DistributePlaces(routes, r);
    }
  }

  /** `get_routes`' table, over the extractor's entries when none is a dictionary. */
  lemma RoutesSpec(items: seq<Item>)
    requires forall i | 0 <= i < |items| :: items[i].Key?
    ensures Routes(items).Success?
    ensures var m := Routes(items).value;
            && (forall k | k in m :: exists r | r in EdgeLists(items) :: StartsAt(r, k))
            && (forall k | k in m :: GroupOf(m[k], k, EdgeLists(items)))
            && (forall r | r in EdgeLists(items) ::
                  r != [] && r[0] in m && exists j | 0 <= j < |m[r[0]]| :: m[r[0]][j].0 == r)
  {
    TableSpec(RouteStrings(items).value, EdgeLists(items));
  }

  // ---------------------------------------------------------------- get_edges

  /** Why summarising an edge's lanes fails: a lane without the attribute (`KeyError`), a text
      `float()` rejects (`ValueError`), or an edge without lanes (`max` of an empty list). */
  datatype EdgeError = MissingAttribute(name: string) | NotAFloat(text: string) | NoLanes

  /** Whether every lane carries attribute `name` with a text `parse` accepts. */
  predicate AllParse(lanes: seq<Attrs>, name: string, parse: string -> Option<real>)
  {
    forall i | 0 <= i < |lanes| :: name in lanes[i] && parse(lanes[i][name]).Some?
  }

  /** `[float(lane[name]) for lane in lanes]`, where `parse` stands for `float()` on a string:
      the values in lane order, or the error of the first lane that lacks the attribute or
      whose text does not parse. */
  function Floats(lanes: seq<Attrs>, name: string, parse: string -> Option<real>)
    : (r: Result<seq<real>, EdgeError>)
    ensures r.Success? <==> AllParse(lanes, name, parse)
    ensures r.Success? ==>
      |r.value| == |lanes| && forall i | 0 <= i < |lanes| :: parse(lanes[i][name]) == Some(r.value[i])
    ensures r.Failure? ==>
      exists i | 0 <= i < |lanes| ::
        && AllParse(lanes[..i], name, parse)
        && r.error == (if name !in lanes[i] then MissingAttribute(name) else NotAFloat(lanes[i][name]))
  {
    if lanes == [] then Success([])
    else if name !in lanes[0] then
      assert AllParse(lanes[..0], name, parse);
      Failure(MissingAttribute(name))
    else
      match parse(lanes[0][name])
      case None =>
        assert AllParse(lanes[..0], name, parse);
        Failure(NotAFloat(lanes[0][name]))
      case Some(x) =>
        match Floats(lanes[1..], name, parse)
        case Failure(e) =>
          var i :| 0 <= i < |lanes[1..]| && AllParse(lanes[1..][..i], name, parse)
                   && e == (if name !in lanes[1..][i] then MissingAttribute(name) else NotAFloat(lanes[1..][i][name]));
          assert AllParse(lanes[..i + 1], name, parse) by {
            assert lanes[..i + 1][1..] == lanes[1..][..i];
          }
          Failure(e)
        case Success(rest) => Success([x] + rest)
  }

  /** `max(xs)`: the largest value, which is one of them. */
  function MaxOf(xs: seq<real>): (m: real)
    requires xs != []
    ensures m in xs
    ensures forall x | x in xs :: x <= m
  {
    if |xs| == 1 then xs[0]
    else
      var rest := MaxOf(xs[1..]);
      assert forall x | x in xs :: x == xs[0] || x in xs[1..];
      if xs[0] >= rest then xs[0] else rest
  }

  /** An entry of the extractor as `get_edges` receives it: a dictionary holding its lanes. */
  predicate HasLanes(it: Item)
  {
    it.Dict? && "lanes" in it.fields && it.fields["lanes"].Rows?
  }

  /** The loop body of `get_edges` for one edge: `speed` and `length` become the largest of the
      lanes' values, `numLanes` the number of lanes, and `lanes` goes away. It succeeds exactly
      when the edge has lanes and every lane has a parsable speed and length; with parsable
      speeds and no lanes it fails for want of lanes. */
  function Summary(fields: Record, parse: string -> Option<real>): (r: Result<Record, EdgeError>)
    requires "lanes" in fields && fields["lanes"].Rows?
    ensures var lanes := fields["lanes"].rows;
            r.Success? <==> lanes != [] && AllParse(lanes, "speed", parse) && AllParse(lanes, "length", parse)
    ensures var lanes := fields["lanes"].rows;
            AllParse(lanes, "speed", parse) && lanes == [] ==> r == Failure(NoLanes)
  {
    var lanes := fields["lanes"].rows;
    match Floats(lanes, "speed", parse)
    case Failure(e) => Failure(e)
    case Success(speeds) =>
      if speeds == [] then Failure(NoLanes)
      else
        match Floats(lanes, "length", parse)
        case Failure(e) => Failure(e)
        case Success(lengths) =>
          Success(fields["speed" := Real(MaxOf(speeds))]
                        ["length" := Real(MaxOf(lengths))]
                        ["numLanes" := Int(|lanes|)] - {"lanes"})
  }

  /** Whether `v` is the largest `name` value among the lanes. */
  predicate IsLargest(v: Value, lanes: seq<Attrs>, name: string, parse: string -> Option<real>)
  {
    && v.Real?
    && AllParse(lanes, name, parse)
    && (forall i | 0 <= i < |lanes| :: parse(lanes[i][name]).value <= v.r)
    && (exists i | 0 <= i < |lanes| :: parse(lanes[i][name]) == Some(v.r))
  }

  /** The largest of the parsed values is the largest `name` value among the lanes. */
  lemma FloatsLargest(lanes: seq<Attrs>, name: string, parse: string -> Option<real>)
    requires lanes != [] && Floats(lanes, name, parse).Success?
    ensures IsLargest(Real(MaxOf(Floats(lanes, name, parse).value)), lanes, name, parse)
  {
    var values := Floats(lanes, name, parse).value;
    var m := MaxOf(values);
    var i :| 0 <= i < |values| && values[i] == m;
    assert parse(lanes[i][name]) == Some(m);
    forall j | 0 <= j < |lanes| ensures parse(lanes[j][name]).value <= m {
      assert values[j] in values;
    }
  }

  /** A successful summary keeps every other field, sets `speed` and `length` to the largest
      lane values and `numLanes` to the lane count, and drops `lanes`. */
  lemma SummaryFields(fields: Record, parse: string -> Option<real>)
    requires "lanes" in fields && fields["lanes"].Rows?
    requires Summary(fields, parse).Success?
    ensures var lanes := fields["lanes"].rows;
            var f := Summary(fields, parse).value;
            && f.Keys == fields.Keys - {"lanes"} + {"speed", "length", "numLanes"}
            && (forall k | k in fields && k !in {"lanes", "speed", "length", "numLanes"} :: f[k] == fields[k])
            && IsLargest(f["speed"], lanes, "speed", parse)
            && IsLargest(f["length"], lanes, "length", parse)
            && f["numLanes"] == Int(|lanes|)
  {
    var lanes := fields["lanes"].rows;
    FloatsLargest(lanes, "speed", parse);
    FloatsLargest(lanes, "length", parse);
  }

  /** One edge entry summarised, as a dictionary again. */
  function Summarizer(parse: string -> Option<real>): Item --> Result<Item, EdgeError>
  {
    (it: Item) requires HasLanes(it) =>
      match Summary(it.fields, parse)
      case Failure(e) => Failure(e)
      case Success(f) => Success(Dict(f))
  }

  lemma LanesAttached(it: Item, e: Element)
    requires EntryShape(it, e, None, Some("lane"))
    ensures HasLanes(it)
  {
    assert "lane" + "s" == "lanes";
  }

  /** The extractor's entries for the edges of the `intersection` network: each a dictionary
      with its lanes attached. */
  function EdgeEntries(fs: FileSystem, home: string): (items: seq<Item>)
    ensures forall i {:trigger items[i]} | 0 <= i < |items| :: HasLanes(items[i])
  {
    var items := GenericElements(fs, home, "intersection", "edge", "net", Some("function"), None, Some("lane"));
    assert forall i {:trigger items[i]} | 0 <= i < |items| :: HasLanes(items[i]) by {
      if GetPath(home, "intersection", "net") in fs {
        var kept := Kept(FindAll(fs[GetPath(home, "intersection", "net")], "edge"), Some("function"));
        GenericElementsSpec(fs, home, "intersection", "edge", "net", Some("function"), None, Some("lane"));
        forall i | 0 <= i < |items| ensures HasLanes(items[i]) {
          LanesAttached(items[i], kept[i]);
        }
      }
    }
    items
  }

  /** `get_edges(network_id)`, whose result does not depend on `network_id`: the network read
      is always `intersection`. */
  function Edges(fs: FileSystem, home: string, parse: string -> Option<real>): Result<seq<Item>, EdgeError>
  {
    Seqs.MapAll(Summarizer(parse), EdgeEntries(fs, home))
  }

  /** `get_edges` succeeds exactly when every edge's summary does, and then returns the
      summaries one for one; otherwise it reports the error of the first edge that fails. */
  lemma EdgesSpec(fs: FileSystem, home: string, parse: string -> Option<real>)
    ensures var items := EdgeEntries(fs, home);
            Edges(fs, home, parse).Success? <==>
              forall i | 0 <= i < |items| :: Summary(items[i].fields, parse).Success?
    ensures var items := EdgeEntries(fs, home);
            var r := Edges(fs, home, parse);
            r.Success? ==>
              |r.value| == |items| &&
              forall i | 0 <= i < |items| :: r.value[i] == Dict(Summary(items[i].fields, parse).value)
    ensures var items := EdgeEntries(fs, home);
            var r := Edges(fs, home, parse);
            r.Failure? ==>
              exists i | 0 <= i < |items| ::
                && (forall j | 0 <= j < i :: Summary(items[j].fields, parse).Success?)
                && Summary(items[i].fields, parse).Failure?
                && r.error == Summary(items[i].fields, parse).error
  {
    var items := EdgeEntries(fs, home);
    var f := Summarizer(parse);
    Seqs.MapAllSucceeds(f, items);
    if Edges(fs, home, parse).Failure? {
      Seqs.MapAllFirstError(f, items);
    }
  }

  /** The body of `get_edges`' loop for one edge dictionary, statement by statement: each of
      the first three may raise, and the dictionary is rewritten in place. */
  method SummarizeEdge(e: Record, parse: string -> Option<real>) returns (r: Result<Record, EdgeError>)
    requires "lanes" in e && e["lanes"].Rows?
    ensures r == Summary(e, parse)
  {
    var lanes := e["lanes"].rows;
    var speeds := Floats(lanes, "speed", parse);
    if speeds.Failure? {
      return Failure(speeds.error);
    }
    if speeds.value == [] {
      return Failure(NoLanes);
    }
    var lengths := Floats(lanes, "length", parse);
    if lengths.Failure? {
      return Failure(lengths.error);
    }
    var edge := e;
    edge := edge["speed" := Real(MaxOf(speeds.value))];
    edge := edge["length" := Real(MaxOf(lengths.value))];
    edge := edge["numLanes" := Int(|lanes|)];
    edge := edge - {"lanes"};
    return Success(edge);
  }

  /** The summariser maps an edge entry to its summary, or to the summary's error. */
  lemma SummarizerApplies(parse: string -> Option<real>, it: Item)
    requires HasLanes(it)
    ensures Summary(it.fields, parse).Failure? ==> Summarizer(parse)(it) == Failure(Summary(it.fields, parse).error)
    ensures Summary(it.fields, parse).Success? ==> Summarizer(parse)(it) == Success(Dict(Summary(it.fields, parse).value))
  {
  }

  /** `get_edges`' loop: one pass over the extracted edges, rewriting each entry in place,
      stopping at the first edge that raises. */
  method SummarizeEdges(items: seq<Item>, parse: string -> Option<real>)
    returns (r: Result<seq<Item>, EdgeError>)
    requires forall i {:trigger items[i]} | 0 <= i < |items| :: HasLanes(items[i])
    ensures r == Seqs.MapAll(Summarizer(parse), items)
  {
    ghost var f := Summarizer(parse);
    var edges := items;
    var i := 0;
    while i < |edges|
      invariant 0 <= i <= |edges| == |items|
      invariant forall j | i <= j < |items| :: edges[j] == items[j]
      invariant Seqs.MapAll(f, items[..i]) == Success(edges[..i])
    {
      var summary := SummarizeEdge(edges[i].fields, parse);
      SummarizerApplies(parse, items[i]);
      if summary.Failure? {
        Seqs.MapAllStopAt(f, items, i, summary.error);
        return Failure(summary.error);
      }
      Seqs.MapAllInPlace(f, items, edges, i, Dict(summary.value));
      edges := edges[i := Dict(summary.value)];
      i := i + 1;
    }
    assert items[..i] == items && edges[..i] == edges;
    r := Success(edges);
  }

  /** `get_edges(network_id)` as the source runs it: extract the edges of `intersection`, then
      summarise them in place. */
  method GetEdges(fs: FileSystem, home: string, networkId: string, parse: string -> Option<real>)
    returns (r: Result<seq<Item>, EdgeError>)
    ensures r == Edges(fs, home, parse)
  {
    var edges := GetGenericElement(fs, home, "intersection", "edge", "net", Some("function"), None, Some("lane"));
    assert edges == EdgeEntries(fs, home);
    r := SummarizeEdges(edges, parse);
  }
}

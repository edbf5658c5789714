/** Signal programs: how a `tlLogic` record read from a network file is reshaped into the
    keyword arguments of a traffic-light registration, and the program a signalised node
    runs once registered. */
module TrafficLights {
  import opened Wrappers
  import opened Records
  import PyText
  import Seqs

  /** The program the traffic-light registry holds for one node: its kind (`type`), its
      `programID` and its phases, each phase an attribute map with `state` and `duration`. */
  datatype Program = Program(kind: string, programId: int, phases: seq<Attrs>)

  /** The program the derivations read states and durations from: the static program whose
      identifier is 1. */
  predicate IsDefault(p: Program)
  {
    p.kind == "static" && p.programId == 1
  }

  /** Why reshaping a program fails: a key `pop` does not find (`KeyError`), or a
      `programID` that `int()` rejects. */
  datatype ReshapeError = MissingKey(key: string) | NotAnInteger(v: Value)

  /** One call of the registry's `add(prog_id, **prog)`: the node id and the keyword
      arguments. */
  datatype Registration = Registration(nodeId: Value, kwargs: Record)

  /** `int(v)`: decimal text, an integer, or a float truncated toward zero; `None` where
      Python raises. */
  function IntOf(v: Value): (r: Option<int>)
    ensures v.Text? ==> r == PyText.ParseInt(v.text)
    ensures v.Int? ==> r == Some(v.n)
    ensures v.Real? ==> r == Some(PyText.Trunc(v.r))
    ensures v.Rows? ==> r.None?
  {
    match v
    case Text(s) => PyText.ParseInt(s)
    case Int(n) => Some(n)
    case Real(x) => Some(PyText.Trunc(x))
    case Rows(_) => None
  }

  /** `int()` reads back an integer written as text by `str()`, or held as a whole float. */
  lemma IntOfRoundTrip(n: int)
    ensures IntOf(Text(PyText.IntToString(n))) == Some(n)
    ensures IntOf(Real(n as real)) == Some(n)
  {
    PyText.ParseIntRoundTrip(n);
    if n < 0 {
      assert -(n as real) == (-n) as real;
    }
  }

  /** The reshaping applied to one program record: pop `id`, move `type` to `tls_type`, and
      replace `programID` by its integer value plus one. */
  function Reshape(prog: Record): Result<Registration, ReshapeError>
  {
    if "id" !in prog then Failure(MissingKey("id"))
    else
      var progId := prog["id"];
      var rest := prog - {"id"};
      if "type" !in rest then Failure(MissingKey("type"))
      else
        var rest := (rest - {"type"})["tls_type" := rest["type"]];
        if "programID" !in rest then Failure(MissingKey("programID"))
        else
          match IntOf(rest["programID"])
          case None => Failure(NotAnInteger(rest["programID"]))
          case Some(n) => Success(Registration(progId, (rest - {"programID"})["programID" := Int(n + 1)]))
  }

  /** A program record carrying `id`, `type` and an integer `programID` is registered under
      its `id` with `tls_type` set to its `type`, `programID` set to the parsed value plus
      one, and every other field except `id` and `type` passed on unchanged; a record without
      one of the three keys fails on the first missing one, in the order `id`, `type`,
      `programID`. */
  lemma ReshapeSpec(prog: Record)
    ensures "id" !in prog ==> Reshape(prog) == Failure(MissingKey("id"))
    ensures "id" in prog && "type" !in prog ==> Reshape(prog) == Failure(MissingKey("type"))
    ensures "id" in prog && "type" in prog && "programID" !in prog ==>
              Reshape(prog) == Failure(MissingKey("programID"))
    ensures "id" in prog && "type" in prog && "programID" in prog && IntOf(prog["programID"]).None? ==>
              Reshape(prog) == Failure(NotAnInteger(prog["programID"]))
    ensures "id" in prog && "type" in prog && "programID" in prog && IntOf(prog["programID"]).Some? ==>
              && Reshape(prog).Success?
              && var reg := Reshape(prog).value;
              && reg.nodeId == prog["id"]
              && reg.kwargs.Keys == prog.Keys - {"id", "type"} + {"tls_type"}
              && reg.kwargs["tls_type"] == prog["type"]
              && reg.kwargs["programID"] == Int(IntOf(prog["programID"]).value + 1)
              && forall k | k in prog && k !in {"id", "type", "programID", "tls_type"} :: reg.kwargs[k] == prog[k]
  {
    if "id" in prog && "type" in prog && "programID" in prog {
      assert "programID" != "id" && "programID" != "type" && "programID" != "tls_type";
      assert "type" != "id";
    }
  }

  /** The registry's entry for a registration, as the program derivations read it: `type` is
      the `tls_type` argument, `programID` the `programID` argument and `phases` the phase
      records. */
  function Stored(reg: Registration): Option<Program>
  {
    var kw := reg.kwargs;
    if "tls_type" in kw && kw["tls_type"].Text? && "programID" in kw && kw["programID"].Int?
       && "phases" in kw && kw["phases"].Rows?
    then Some(Program(kw["tls_type"].text, kw["programID"].n, kw["phases"].rows))
    else None
  }

  /** A file's static program with `programID` 0, the one SUMO writes by default, becomes
      the program with identifier 1 that the derivations select. */
  lemma FileDefaultIsSelected(prog: Record)
    requires "id" in prog && "phases" in prog && prog["phases"].Rows?
    requires "type" in prog && prog["type"] == Text("static")
    requires "programID" in prog && prog["programID"] == Text("0")
    ensures Reshape(prog).Success?
    ensures Stored(Reshape(prog).value).Some?
    ensures IsDefault(Stored(Reshape(prog).value).value)
    ensures Stored(Reshape(prog).value).value.phases == prog["phases"].rows
  {
    ReshapeSpec(prog);
    PyText.ParseIntRoundTrip(0);
    assert PyText.IntToString(0) == "0";
    assert "phases" !in {"id", "type", "programID", "tls_type"};
  }

  /** The registration loop in the wrappers' constructors: each program record, in order,
      has `id` and `type` popped, `tls_type` and the shifted `programID` set, and is passed to
      the registry; the first record that raises stops the loop. */
  method RegisterPrograms(programs: seq<Record>) returns (r: Result<seq<Registration>, ReshapeError>)
    ensures r == Seqs.MapAll(Reshape, programs)
  {
    var registered: seq<Registration> := [];
    var n := 0;
    while n < |programs|
      invariant 0 <= n <= |programs|
      invariant Seqs.MapAll(Reshape, programs[..n]) == Success(registered)
    {
      assert programs[..n + 1][..n] == programs[..n];
      var prog := programs[n];
      if "id" !in prog {
        Seqs.MapAllStopAt(Reshape, programs, n, MissingKey("id"));
        return Failure(MissingKey("id"));
      }
      var progId := prog["id"];
      prog := prog - {"id"};
      if "type" !in prog {
        Seqs.MapAllStopAt(Reshape, programs, n, MissingKey("type"));
        return Failure(MissingKey("type"));
      }
      var kind := prog["type"];
      prog := prog - {"type"};
      prog := prog["tls_type" := kind];
      if "programID" !in prog {
        Seqs.MapAllStopAt(Reshape, programs, n, MissingKey("programID"));
        return Failure(MissingKey("programID"));
      }
      var programId := prog["programID"];
      prog := prog - {"programID"};
      var parsed := IntOf(programId);
      if parsed.None? {
        Seqs.MapAllStopAt(Reshape, programs, n, NotAnInteger(programId));
        return Failure(NotAnInteger(programId));
      }
      prog := prog["programID" := Int(parsed.value + 1)];
      assert Reshape(programs[n]) == Success(Registration(progId, prog));
      registered := registered + [Registration(progId, prog)];
      n := n + 1;
    }
    assert programs[..n] == programs;
    r := Success(registered);
  }

  /** Registration succeeds exactly when every record reshapes, and then registers them one
      for one, in order; otherwise it reports the first record's failure. */
  lemma RegistrationsSpec(programs: seq<Record>)
    ensures Seqs.MapAll(Reshape, programs).Success? <==>
            forall i | 0 <= i < |programs| :: Reshape(programs[i]).Success?
    ensures Seqs.MapAll(Reshape, programs).Success? ==>
            var regs := Seqs.MapAll(Reshape, programs).value;
            |regs| == |programs| && forall i | 0 <= i < |programs| :: regs[i] == Reshape(programs[i]).value
    ensures Seqs.MapAll(Reshape, programs).Failure? ==>
            exists i | 0 <= i < |programs| ::
              && (forall j | 0 <= j < i :: Reshape(programs[j]).Success?)
              && Reshape(programs[i]).Failure?
              && Seqs.MapAll(Reshape, programs) == Failure(Reshape(programs[i]).error)
  {
    Seqs.MapAllSucceeds(Reshape, programs);
    if Seqs.MapAll(Reshape, programs).Failure? {
      Seqs.MapAllFirstError(Reshape, programs);
    }
  }
}

/** The source rewriter: every declared function gets an Enter call and a deferred recover/re-panic closure. */
module Instrumenter {
  import opened Options
  import opened Tracert
  import opened MiniGo

  /** The deferred closure: report a running panic and raise it again, otherwise report the return. */
  const TRACER: seq<Stmt> := [IfRecover([ExitPanic, Repanic], []), Exit]

  function Prologue(funcID: string, names: seq<Name>): seq<Stmt> {
    [Enter(funcID, names), DeferFunc(TRACER)]
  }

  function Injected(fn: FuncDecl, funcID: string, isBoundary: bool): FuncDecl {
    fn.(body := Prologue(funcID, if isBoundary then fn.params else []) + fn.body)
  }

  /** Function literals are not declarations, so only the top level of each declared body changes. */
  function Instrument(p: Program, boundary: Name -> bool): Program {
    p.(funcs := map f | f in p.funcs :: Injected(p.funcs[f], f, boundary(f)))
  }

  // ---- The rewrite on a syntax tree node ----

  function Joined(fields: seq<seq<Name>>): seq<Name> {
    if fields == [] then [] else Joined(fields[..|fields|-1]) + fields[|fields|-1]
  }

  /** The number of names in the first i fields. */
  function Before(fields: seq<seq<Name>>, i: nat): nat
    requires i <= |fields|
  {
    if i == 0 then 0 else Before(fields, i - 1) + |fields[i-1]|
  }

  /** Name j of field i stands after the names of the fields before. */
  ghost predicate NameAt(fields: seq<seq<Name>>, names: seq<Name>, i: nat, j: nat) {
    && i < |fields| && j < |fields[i]|
    && Before(fields, i) + j < |names| && names[Before(fields, i) + j] == fields[i][j]
  }

  /** All names of all fields in order, and nothing else. */
  ghost predicate IsAllNames(fields: seq<seq<Name>>, names: seq<Name>) {
    && |names| == Before(fields, |fields|)
    && (forall i: nat, j: nat :: i < |fields| && j < |fields[i]| ==> NameAt(fields, names, i, j))
  }

  lemma {:induction false} BeforeOfLonger(fields: seq<seq<Name>>, field: seq<Name>, i: nat)
    requires i <= |fields|
    ensures Before(fields + [field], i) == Before(fields, i)
  {
    if i > 0 { BeforeOfLonger(fields, field, i - 1); }
  }

  lemma NameStays(fields: seq<seq<Name>>, field: seq<Name>, names: seq<Name>, i: nat, j: nat)
    requires NameAt(fields, names, i, j)
    ensures NameAt(fields + [field], names + field, i, j)
  {
    BeforeOfLonger(fields, field, i);
  }

  lemma NameAdded(fields: seq<seq<Name>>, field: seq<Name>, names: seq<Name>, j: nat)
    requires |names| == Before(fields, |fields|) && j < |field|
    ensures NameAt(fields + [field], names + field, |fields|, j)
  {
    BeforeOfLonger(fields, field, |fields|);
    hide Before;
  }

  lemma AllNamesMore(fields: seq<seq<Name>>, field: seq<Name>, names: seq<Name>)
    requires IsAllNames(fields, names)
    ensures IsAllNames(fields + [field], names + field)
  {
    hide NameAt;
    var more := fields + [field];
    BeforeOfLonger(fields, field, |fields|);
    forall i: nat, j: nat | i < |more| && j < |more[i]| ensures NameAt(more, names + field, i, j) {
      if i < |fields| { NameStays(fields, field, names, i, j); } else { NameAdded(fields, field, names, j); }
    }
  }

  lemma {:induction false} JoinedIsAllNames(fields: seq<seq<Name>>)
    ensures IsAllNames(fields, Joined(fields))
  {
    if fields != [] {
      var front, last := fields[..|fields|-1], fields[|fields|-1];
      JoinedIsAllNames(front);
      AllNamesMore(front, last, Joined(front));
      assert fields == front + [last];
    }
  }

  /** A function declaration's parameter fields, each naming some parameters, and its statement list. */
  class FuncNode {
    const fields: Option<seq<seq<Name>>>
    var body: seq<Stmt>

    constructor (fields: Option<seq<seq<Name>>>, body: seq<Stmt>)
      ensures this.fields == fields && this.body == body
    {
      this.fields := fields;
      this.body := body;
    }

    function Params(): seq<Name> {
      if fields.Some? then Joined(fields.value) else []
    }

    /** What Enter is given besides the function's id: the names of a boundary function's parameters. */
    ghost predicate IsPassed(isBoundary: bool, names: seq<Name>) {
      if isBoundary && fields.Some? then IsAllNames(fields.value, names) else names == []
    }

    /** The statement holding the Enter call; a boundary function passes all its parameters. */
    method BuildEnterCall(funcID: string, isBoundary: bool) returns (s: Stmt)
      ensures s.Enter? && s.funcID == funcID && IsPassed(isBoundary, s.names)
      ensures s == Enter(funcID, if isBoundary then Params() else [])
    {
      if fields.Some? { JoinedIsAllNames(fields.value); }
      var names: seq<Name> := [];
      if isBoundary && fields.Some? {
        var list := fields.value;
        for i := 0 to |list|
          invariant names == Joined(list[..i])
        {
          assert list[..i+1][..i] == list[..i];
          ghost var before := names;
          for j := 0 to |list[i]|
            invariant names == before + list[i][..j]
          {
            names := names + [list[i][j]];
          }
          assert list[i][..|list[i]|] == list[i];
        }
        assert list[..|list|] == list;
      }
      s := Enter(funcID, names);
    }

    method InjectEntry(funcID: string, isBoundary: bool)
      modifies this`body
      ensures |body| >= 2 && body[2..] == old(body)
      ensures body[0].Enter? && body[0].funcID == funcID && IsPassed(isBoundary, body[0].names)
      ensures body[1] == DeferFunc([IfRecover([ExitPanic, Repanic], []), Exit])
      ensures FuncDecl(Params(), body) == Injected(FuncDecl(Params(), old(body)), funcID, isBoundary)
    {
      var enterCall := BuildEnterCall(funcID, isBoundary);
      body := [enterCall, DeferFunc(TRACER)] + body;
    }
  }
}

/** Which functions of a program with a main nothing it runs can reach
    (internal/cproject/reach.go).  Resolution of a reference, and the reading of assembly
    text, are given: a piece of code says which repository functions it names. */
module Reach {

  type Fn = string

  /** What one node of a declaration says of functions. */
  datatype Mention =
    | Plain
    | Reference(fns: seq<Fn>, loadsCode: bool)        // a function named in an expression
    | Cleanup(fns: seq<Fn>)                           // a variable's cleanup attribute
    | Assembly(isLabel: bool, read: bool, fns: seq<Fn>) // asm, alias and asm-label text

  datatype Code = Code(mention: Mention, children: seq<Code>)

  datatype Part =
    | Constructor                             // or destructor
    | Body(code: Code)
    | AsmLabel(written: bool, code: Code)
    | OtherPart(code: Code)

  /** A top-level declaration.  `fn` is the repository function a FunctionDecl declares;
      `reserved` a name a platform header also declares or that begins with an underscore. */
  datatype Decl =
    | FunctionDecl(fn: Option<Fn>, external: bool, reserved: bool, parts: seq<Part>)
    | OtherDecl(code: Code)

  datatype Option<+T> = None | Some(value: T)

  function Set(fns: seq<Fn>): set<Fn> {
    set f | f in fns
  }

  // ----- what the code names -----

  function Own(m: Mention): seq<Fn> {
    match m
    case Plain => []
    case Reference(fns, _) => fns
    case Cleanup(fns) => fns
    case Assembly(_, read, fns) => if read then fns else []
  }

  /** Text that could not be read is not looked into. */
  predicate Unread(m: Mention) {
    m.Assembly? && !m.read
  }

  function Names(c: Code): set<Fn>
    decreases c, |c.children| + 1
  {
    Set(Own(c.mention)) + if Unread(c.mention) then {} else NamesIn(c, |c.children|)
  }

  function NamesIn(c: Code, k: nat): set<Fn>
    requires k <= |c.children|
    decreases c, k
  {
    if k == 0 then {} else NamesIn(c, k - 1) + Names(c.children[k-1])
  }

  /** It loads or looks up code at run time. */
  predicate Loads(c: Code) {
    || (c.mention.Reference? && c.mention.fns == [] && c.mention.loadsCode)
    || (!Unread(c.mention) && exists i :: 0 <= i < |c.children| && Loads(c.children[i]))
  }

  /** It holds text that names functions and cannot be read. */
  predicate Opaque(c: Code) {
    if Unread(c.mention) then !c.mention.isLabel
    else exists i :: 0 <= i < |c.children| && Opaque(c.children[i])
  }

  function PartCode(p: Part): Code {
    match p
    case Constructor => Code(Plain, [])
    case Body(code) => code
    case AsmLabel(_, code) => code
    case OtherPart(code) => code
  }

  /** A body of a declaration that names no repository function is not visited. */
  predicate Visited(fn: Option<Fn>, p: Part) {
    p.Body? ==> fn.Some?
  }

  function PartRoots(fn: Option<Fn>, p: Part): set<Fn> {
    match p
    case Constructor => if fn.Some? then {fn.value} else {}
    case Body(_) => {}
    case AsmLabel(written, code) => (if fn.Some? && written then {fn.value} else {}) + Names(code)
    case OtherPart(code) => Names(code)
  }

  function PartsRoots(fn: Option<Fn>, parts: seq<Part>): set<Fn> {
    if parts == [] then {} else PartsRoots(fn, parts[..|parts|-1]) + PartRoots(fn, parts[|parts|-1])
  }

  function DeclRoots(d: Decl): set<Fn> {
    match d
    case OtherDecl(code) => Names(code)
    case FunctionDecl(fn, external, reserved, parts) =>
      (if fn.Some? && external && reserved then {fn.value} else {}) + PartsRoots(fn, parts)
  }

  /** Where running starts, main aside. */
  function Roots(decls: seq<Decl>): set<Fn> {
    if decls == [] then {} else Roots(decls[..|decls|-1]) + DeclRoots(decls[|decls|-1])
  }

  function PartsNames(parts: seq<Part>): set<Fn> {
    if parts == [] then {}
    else PartsNames(parts[..|parts|-1]) + if parts[|parts|-1].Body? then Names(parts[|parts|-1].code) else {}
  }

  function DeclNames(d: Decl, f: Fn): set<Fn> {
    if d.FunctionDecl? && d.fn == Some(f) then PartsNames(d.parts) else {}
  }

  /** What the definitions of a function name. */
  function NamedBy(decls: seq<Decl>, f: Fn): set<Fn> {
    if decls == [] then {} else NamedBy(decls[..|decls|-1], f) + DeclNames(decls[|decls|-1], f)
  }

  function DeclExternal(d: Decl): set<Fn> {
    if d.FunctionDecl? && d.fn.Some? && d.external then {d.fn.value} else {}
  }

  function Externals(decls: seq<Decl>): set<Fn> {
    if decls == [] then {} else Externals(decls[..|decls|-1]) + DeclExternal(decls[|decls|-1])
  }

  predicate PartsLoad(fn: Option<Fn>, parts: seq<Part>) {
    exists i :: 0 <= i < |parts| && Visited(fn, parts[i]) && Loads(PartCode(parts[i]))
  }

  predicate PartsOpaque(fn: Option<Fn>, parts: seq<Part>) {
    exists i :: 0 <= i < |parts| && Visited(fn, parts[i]) && Opaque(PartCode(parts[i]))
  }

  predicate DeclLoads(d: Decl) {
    if d.OtherDecl? then Loads(d.code) else PartsLoad(d.fn, d.parts)
  }

  predicate DeclOpaque(d: Decl) {
    if d.OtherDecl? then Opaque(d.code) else PartsOpaque(d.fn, d.parts)
  }

  predicate AnyLoads(decls: seq<Decl>) {
    exists i :: 0 <= i < |decls| && DeclLoads(decls[i])
  }

  predicate AnyOpaque(decls: seq<Decl>) {
    exists i :: 0 <= i < |decls| && DeclOpaque(decls[i])
  }

  // ----- what can run -----

  /** A program as it runs: `outside` is whether code nobody read is linked in or loaded. */
  datatype Program = Program(main: Fn, decls: seq<Decl>, outside: bool)

  datatype State = State(stack: seq<Fn>, memory: set<Fn>)

  datatype Step =
    | Call(callee: Fn)      // the code on top calls what it names, or a pointer in memory
    | Keep(fn: Fn)          // it puts the address of what it names in memory
    | Leave                 // it returns
    | Callback(fn: Fn)      // the runtime calls a root or a pointer it was handed
    | Intrude(fn: Fn)       // code nobody read calls an external function by its name

  predicate Enabled(p: Program, s: State, step: Step) {
    match step
    case Call(g) => s.stack != [] && (g in NamedBy(p.decls, s.stack[|s.stack|-1]) || g in s.memory)
    case Keep(g) => s.stack != [] && g in NamedBy(p.decls, s.stack[|s.stack|-1])
    case Leave => s.stack != []
    case Callback(g) => g in Roots(p.decls) || g in s.memory
    case Intrude(g) => p.outside && g in Externals(p.decls)
  }

  function Take(p: Program, s: State, step: Step): State
    requires Enabled(p, s, step)
  {
    match step
    case Call(g) => s.(stack := s.stack + [g])
    case Keep(g) => s.(memory := s.memory + {g})
    case Leave => s.(stack := s.stack[..|s.stack|-1])
    case Callback(g) => s.(stack := s.stack + [g])
    case Intrude(g) => s.(stack := s.stack + [g])
  }

  predicate IsRun(p: Program, s: State, steps: seq<Step>)
    decreases |steps|
  {
    steps == [] || (Enabled(p, s, steps[0]) && IsRun(p, Take(p, s, steps[0]), steps[1..]))
  }

  function Final(p: Program, s: State, steps: seq<Step>): State
    requires IsRun(p, s, steps)
    decreases |steps|
  {
    if steps == [] then s else Final(p, Take(p, s, steps[0]), steps[1..])
  }

  /** main runs; what file-scope initializers name may be in memory from the start. */
  function Start(p: Program): State {
    State([p.main], Roots(p.decls))
  }

  // ----- the least set that holds the roots and what its members' definitions name -----

  ghost predicate ClosedUnder(edges: map<Fn, seq<Fn>>, s: set<Fn>) {
    forall f :: f in s ==> Set(EdgesOf(edges, f)) <= s
  }

  ghost predicate Least(edges: map<Fn, seq<Fn>>, roots: set<Fn>, s: set<Fn>) {
    && roots <= s && ClosedUnder(edges, s)
    && forall t :: roots <= t && ClosedUnder(edges, t) ==> s <= t
  }

  function EdgesOf(edges: map<Fn, seq<Fn>>, f: Fn): seq<Fn> {
    if f in edges then edges[f] else []
  }

  lemma {:induction false} SetJoin(a: seq<Fn>, b: seq<Fn>)
    ensures Set(a + b) == Set(a) + Set(b)
  {
    assert forall x :: x in a + b <==> x in a || x in b;
  }

  /** `names` were added to the roots, or to the edges of one function; nothing else moved. */
  ghost predicate Gained(from: Option<Fn>, e0: map<Fn, seq<Fn>>, r0: seq<Fn>, e1: map<Fn, seq<Fn>>, r1: seq<Fn>,
                         names: set<Fn>) {
    match from
    case None => e1 == e0 && Set(r1) == Set(r0) + names
    case Some(f) =>
      && r1 == r0 && Set(EdgesOf(e1, f)) == Set(EdgesOf(e0, f)) + names
      && Elsewhere(f, e0, e1)
  }

  ghost predicate Elsewhere(f: Fn, e0: map<Fn, seq<Fn>>, e1: map<Fn, seq<Fn>>) {
    forall g :: g != f ==> EdgesOf(e1, g) == EdgesOf(e0, g)
  }

  class Marker {
    var edges: map<Fn, seq<Fn>>
    var roots: seq<Fn>
    var external: seq<Fn>
    var outside: bool
    var provable: bool

    /** Hands named functions to the roots, or to the edges of the function naming them. */
    method Named(from: Option<Fn>, fns: seq<Fn>)
      modifies this`edges, this`roots
      ensures Gained(from, old(edges), old(roots), edges, roots, Set(fns))
    {
      for i := 0 to |fns|
        invariant Gained(from, old(edges), old(roots), edges, roots, Set(fns[..i]))
      {
        SetJoin(fns[..i], [fns[i]]);
        assert fns[..i+1] == fns[..i] + [fns[i]];
        match from {
          case None =>
            SetJoin(roots, [fns[i]]);
            roots := roots + [fns[i]];
          case Some(g) =>
            SetJoin(EdgesOf(edges, g), [fns[i]]);
            edges := edges[g := EdgesOf(edges, g) + [fns[i]]];
        }
      }
      assert fns[..|fns|] == fns;
    }

    /** Walks one piece of code; once text could not be read nothing more is looked at. */
    method Visit(c: Code, from: Option<Fn>)
      modifies this`edges, this`roots, this`outside, this`provable
      ensures provable <==> old(provable) && !Opaque(c)
      ensures provable ==> (outside <==> old(outside) || Loads(c))
      ensures provable ==> Gained(from, old(edges), old(roots), edges, roots, Names(c))
      decreases c
    {
      if !provable { return; }
      if Unread(c.mention) {
        if !c.mention.isLabel { provable := false; }
        return;
      }
      Named(from, Own(c.mention));
      if c.mention.Reference? && |c.mention.fns| == 0 && c.mention.loadsCode {
        outside := true;
      }
      ghost var e, r, o := edges, roots, outside;
      for i := 0 to |c.children|
        invariant provable <==> forall j :: 0 <= j < i ==> !Opaque(c.children[j])
        invariant provable ==> (outside <==> o || exists j :: 0 <= j < i && Loads(c.children[j]))
        invariant provable ==> Gained(from, e, r, edges, roots, NamesIn(c, i))
      {
        Visit(c.children[i], from);
      }
    }

    /** One declaration: a function's body gives its edges, everything else gives roots. */
    method MarkParts(fn: Option<Fn>, parts: seq<Part>)
      modifies this`edges, this`roots, this`outside, this`provable
      ensures provable <==> old(provable) && !PartsOpaque(fn, parts)
      ensures provable ==> (outside <==> old(outside) || PartsLoad(fn, parts))
      ensures provable ==> Set(roots) == old(Set(roots)) + PartsRoots(fn, parts)
      ensures provable && fn.Some? ==>
              Set(EdgesOf(edges, fn.value)) == old(Set(EdgesOf(edges, fn.value))) + PartsNames(parts)
      ensures provable ==> if fn.Some? then Elsewhere(fn.value, old(edges), edges) else edges == old(edges)
    {
      for i := 0 to |parts|
        invariant provable <==> old(provable) && forall j :: 0 <= j < i ==>
                  !(Visited(fn, parts[j]) && Opaque(PartCode(parts[j])))
        invariant provable ==> (outside <==> old(outside) || exists j ::
                  0 <= j < i && Visited(fn, parts[j])
                  && Loads(PartCode(parts[j])))
        invariant provable ==> Set(roots) == old(Set(roots)) + PartsRoots(fn, parts[..i])
        invariant provable && fn.Some? ==>
                  Set(EdgesOf(edges, fn.value)) == old(Set(EdgesOf(edges, fn.value))) + PartsNames(parts[..i])
        invariant provable ==> if fn.Some? then Elsewhere(fn.value, old(edges), edges) else edges == old(edges)
      {
        assert parts[..i+1][..i] == parts[..i];
        MarkPart(fn, parts[i]);
      }
      assert parts[..|parts|] == parts;
    }

    method MarkPart(fn: Option<Fn>, part: Part)
      modifies this`edges, this`roots, this`outside, this`provable
      ensures provable <==> old(provable) && !(Visited(fn, part) && Opaque(PartCode(part)))
      ensures provable ==> (outside <==> old(outside) || (Visited(fn, part) && Loads(PartCode(part))))
      ensures provable ==> Set(roots) == old(Set(roots)) + PartRoots(fn, part)
      ensures provable && fn.Some? ==>
              Set(EdgesOf(edges, fn.value)) == old(Set(EdgesOf(edges, fn.value))) + if part.Body?
              then Names(part.code) else {}
      ensures provable ==> if fn.Some? then Elsewhere(fn.value, old(edges), edges) else edges == old(edges)
    {
      match part
      case Constructor =>
        if fn.Some? { Named(None, [fn.value]); }
      case Body(code) =>
        if fn.Some? { Visit(code, fn); }
      case AsmLabel(written, code) =>
        if fn.Some? && written { Named(None, [fn.value]); }
        Visit(code, None);
      case OtherPart(code) =>
        Visit(code, None);
    }

    /** Which of the program's functions nothing it runs can reach. */
    method MarkUnreachable(main: Option<Fn>, decls: seq<Decl>, functions: seq<Fn>) returns (unreachable: set<Fn>)
      requires edges == map[] && roots == [] && external == []
      modifies this
      ensures main.None? || !old(provable) || AnyOpaque(decls) ==> unreachable == {}
      ensures main.Some? && old(provable) && !AnyOpaque(decls) ==>
                var p := Program(main.value, decls, old(outside) || AnyLoads(decls));
                forall f :: f in unreachable <==> f in functions && !Executes(p, f)
    {
      if main.None? { return {}; }
      MarkAll(main.value, decls);
      if !provable { return {}; }
      if outside {
        SetJoin(roots, external);
        roots := roots + external;
      }
      var reached := Reached(edges, roots);
      unreachable := set f | f in functions && f !in reached;
      ReachedExactly(Program(main.value, decls, outside), edges, roots, external, reached);
    }

    method MarkAll(main: Fn, decls: seq<Decl>)
      requires edges == map[] && roots == [] && external == []
      modifies this
      ensures provable <==> old(provable) && !AnyOpaque(decls)
      ensures provable ==>
              Gathered(main, decls, edges, roots, external)
              && (outside <==> old(outside) || AnyLoads(decls))
    {
      roots := [main];
      for i := 0 to |decls|
        invariant provable <==> old(provable) && !AnyOpaque(decls[..i])
        invariant provable ==> Gathered(main, decls[..i], edges, roots, external)
        invariant provable ==> (outside <==> old(outside) || AnyLoads(decls[..i]))
      {
        ghost var e, r, x := edges, roots, external;
        MarkDecl(decls[i]);
        assert decls[..i+1] == decls[..i] + [decls[i]];
        if provable { GatheredNext(main, decls[..i], decls[i], e, r, x, edges, roots, external); }
      }
      assert decls[..|decls|] == decls;
    }

    method MarkDecl(d: Decl)
      modifies this
      ensures provable <==> old(provable) && !DeclOpaque(d)
      ensures provable ==> (outside <==> old(outside) || DeclLoads(d))
      ensures provable ==> Set(roots) == old(Set(roots)) + DeclRoots(d)
      ensures provable ==> Set(external) == old(Set(external)) + DeclExternal(d)
      ensures provable ==> forall f :: Set(EdgesOf(edges, f)) == old(Set(EdgesOf(edges, f))) + DeclNames(d, f)
    {
      match d
      case OtherDecl(code) =>
        Visit(code, None);
      case FunctionDecl(fn, isExternal, reserved, parts) =>
        if fn.Some? && isExternal {
          SetJoin(external, [fn.value]);
          external := external + [fn.value];
          if reserved { Named(None, [fn.value]); }
        }
        MarkParts(fn, parts);
    }
  }

  /** What the first declarations gave. */
  ghost predicate Gathered(main: Fn, decls: seq<Decl>, edges: map<Fn, seq<Fn>>, roots: seq<Fn>, external: seq<Fn>) {
    && Set(roots) == {main} + Roots(decls)
    && Set(external) == Externals(decls)
    && forall f :: Set(EdgesOf(edges, f)) == NamedBy(decls, f)
  }

  lemma {:induction false} GatheredNext(main: Fn, decls: seq<Decl>, d: Decl, e0: map<Fn, seq<Fn>>, r0: seq<Fn>,
                                        x0: seq<Fn>,
                                        e1: map<Fn, seq<Fn>>, r1: seq<Fn>, x1: seq<Fn>)
    requires Gathered(main, decls, e0, r0, x0)
    requires Set(r1) == Set(r0) + DeclRoots(d) && Set(x1) == Set(x0) + DeclExternal(d)
    requires forall f :: Set(EdgesOf(e1, f)) == Set(EdgesOf(e0, f)) + DeclNames(d, f)
    ensures Gathered(main, decls + [d], e1, r1, x1)
  {
    var more := decls + [d];
    assert more[..|more|-1] == decls && more[|more|-1] == d;
  }

  /** The worklist's invariant: what is reached has its edges reached or still to be popped,
      and nothing outside the least closed set was ever pushed. */
  ghost predicate Working(edges: map<Fn, seq<Fn>>, start: set<Fn>, reached: set<Fn>, pending: set<Fn>) {
    && start <= reached + pending
    && reached + pending <= start + Targets(edges)
    && (forall f :: f in reached ==> Set(EdgesOf(edges, f)) <= reached + pending)
    && (forall t :: start <= t && ClosedUnder(edges, t) ==> reached + pending <= t)
  }

  lemma {:induction false} Expand(edges: map<Fn, seq<Fn>>, start: set<Fn>, reached: set<Fn>, pending: set<Fn>, fn: Fn)
    requires Working(edges, start, reached, pending + {fn})
    ensures Working(edges, start, reached + {fn}, pending + Set(EdgesOf(edges, fn)))
  {
  }

  /** Functions are pushed once for every edge naming them, and followed once. */
  method Reached(edges: map<Fn, seq<Fn>>, start: seq<Fn>) returns (reached: set<Fn>)
    ensures Least(edges, Set(start), reached)
  {
    var roots := start;
    reached := {};
    ghost var universe := Set(start) + Targets(edges);
    while |roots| > 0
      invariant Working(edges, Set(start), reached, Set(roots))
      decreases |universe - reached|, |roots|
    {
      var fn := roots[|roots|-1];
      roots := Pop(roots);
      if fn !in reached {
        Fewer(universe - reached, fn);
        assert universe - reached - {fn} == universe - (reached + {fn});
        Expand(edges, Set(start), reached, Set(roots), fn);
        SetJoin(roots, EdgesOf(edges, fn));
        reached := reached + {fn};
        roots := roots + EdgesOf(edges, fn);
      } else {
        assert reached + Set(roots) == reached + (Set(roots) + {fn});
      }
    }
  }

  function Pop(roots: seq<Fn>): (rest: seq<Fn>)
    requires roots != []
    ensures |rest| < |roots| && Set(roots) == Set(rest) + {roots[|roots|-1]}
  {
    var rest := roots[..|roots|-1];
    assert roots == rest + [roots[|roots|-1]];
    SetJoin(rest, [roots[|roots|-1]]);
    rest
  }

  function Targets(edges: map<Fn, seq<Fn>>): set<Fn> {
    set f, g | f in edges && g in edges[f] :: g
  }

  lemma {:induction false} Fewer(s: set<Fn>, x: Fn)
    requires x in s
    ensures |s - {x}| < |s|
  {
  }

  // ----- the functions reached are exactly those some run executes -----

  /** Some run has the function on its stack. */
  ghost predicate Executes(p: Program, f: Fn) {
    exists steps :: IsRun(p, Start(p), steps) && f in Final(p, Start(p), steps).stack
  }

  ghost predicate OnTop(p: Program, f: Fn) {
    exists steps :: IsRun(p, Start(p), steps) && TopIs(Final(p, Start(p), steps), f)
  }

  predicate TopIs(s: State, f: Fn) {
    s.stack != [] && s.stack[|s.stack|-1] == f
  }

  /** Nothing on the stack or in memory is outside `reached`. */
  predicate Inside(s: State, reached: set<Fn>) {
    Set(s.stack) <= reached && s.memory <= reached
  }

  /** A set that holds where running starts and what its members name. */
  ghost predicate Holds(p: Program, reached: set<Fn>) {
    && p.main in reached && Roots(p.decls) <= reached
    && (p.outside ==> Externals(p.decls) <= reached)
    && forall f :: f in reached ==> NamedBy(p.decls, f) <= reached
  }

  lemma {:induction false} StaysInside(p: Program, s: State, steps: seq<Step>, reached: set<Fn>)
    requires Holds(p, reached) && Inside(s, reached) && IsRun(p, s, steps)
    ensures Inside(Final(p, s, steps), reached)
    decreases |steps|
  {
    if steps != [] {
      var next := Take(p, s, steps[0]);
      if s.stack != [] { assert s.stack[|s.stack|-1] in Set(s.stack); }
      match steps[0] {
        case Call(g) => SetJoin(s.stack, [g]);
        case Callback(g) => SetJoin(s.stack, [g]);
        case Intrude(g) => SetJoin(s.stack, [g]);
        case Keep(g) =>
        case Leave => assert forall f :: f in next.stack ==> f in s.stack;
      }
      StaysInside(p, next, steps[1..], reached);
    }
  }

  lemma {:induction false} OneMore(p: Program, s: State, steps: seq<Step>, step: Step)
    requires IsRun(p, s, steps) && Enabled(p, Final(p, s, steps), step)
    ensures IsRun(p, s, steps + [step])
    ensures Final(p, s, steps + [step]) == Take(p, Final(p, s, steps), step)
    decreases |steps|
  {
    if steps == [] {
      assert steps + [step] == [step];
      assert [step][1..] == [];
    } else {
      assert (steps + [step])[1..] == steps[1..] + [step];
      OneMore(p, Take(p, s, steps[0]), steps[1..], step);
    }
  }

  lemma {:induction false} PushedOnTop(p: Program, steps: seq<Step>, step: Step, g: Fn)
    requires IsRun(p, Start(p), steps) && Enabled(p, Final(p, Start(p), steps), step)
    requires step == Call(g) || step == Callback(g) || step == Intrude(g)
    ensures OnTop(p, g)
  {
    OneMore(p, Start(p), steps, step);
    assert TopIs(Final(p, Start(p), steps + [step]), g);
  }

  /** Everything the worklist reaches, some run puts on top of its stack. */
  lemma {:induction false} ReachedRuns(p: Program, edges: map<Fn, seq<Fn>>, roots: set<Fn>, reached: set<Fn>)
    requires Least(edges, roots, reached)
    requires roots == {p.main} + Roots(p.decls) + (if p.outside then Externals(p.decls) else {})
    requires forall f :: Set(EdgesOf(edges, f)) == NamedBy(p.decls, f)
    ensures forall f :: f in reached ==> OnTop(p, f)
  {
    ghost var running := set f | f in reached && OnTop(p, f);
    forall f | f in roots ensures f in running {
      if f == p.main {
        assert IsRun(p, Start(p), []) && TopIs(Final(p, Start(p), []), f);
      } else if f in Roots(p.decls) {
        PushedOnTop(p, [], Callback(f), f);
      } else {
        PushedOnTop(p, [], Intrude(f), f);
      }
    }
    forall f | f in running ensures Set(EdgesOf(edges, f)) <= running {
      var steps :| IsRun(p, Start(p), steps) && TopIs(Final(p, Start(p), steps), f);
      forall g | g in Set(EdgesOf(edges, f)) ensures g in running {
        PushedOnTop(p, steps, Call(g), g);
      }
    }
    assert ClosedUnder(edges, running);
  }

  /** What is marked unreachable is never executed, and nothing else is marked. */
  lemma {:induction false} ReachedExactly(p: Program, edges: map<Fn, seq<Fn>>, roots: seq<Fn>, external: seq<Fn>,
                                          reached: set<Fn>)
    requires Least(edges, Set(roots), reached)
    requires Set(roots) == {p.main} + Roots(p.decls) + (if p.outside then Externals(p.decls) else {})
    requires forall f :: Set(EdgesOf(edges, f)) == NamedBy(p.decls, f)
    ensures forall f :: f in reached <==> Executes(p, f)
  {
    ReachedRuns(p, edges, Set(roots), reached);
    forall f | OnTop(p, f) ensures Executes(p, f) {
      var steps :| IsRun(p, Start(p), steps) && TopIs(Final(p, Start(p), steps), f);
      assert f in Final(p, Start(p), steps).stack;
    }
    assert Holds(p, reached);
    forall f | Executes(p, f) ensures f in reached {
      var steps :| IsRun(p, Start(p), steps) && f in Final(p, Start(p), steps).stack;
      assert Inside(Start(p), reached);
      StaysInside(p, Start(p), steps, reached);
    }
  }
}

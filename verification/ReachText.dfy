/** Which functions a program reaches, said on its declarations (internal/cproject/reach.go:24-190):
    by the nodes that name functions, where each of them stands, and chains of names. */
module ReachText {
  import opened Reach

  // ----- the nodes that are looked at -----

  /** The node at the place says `m`, and no text that could not be read stands above it. */
  predicate Stands(c: Code, place: seq<nat>, m: Mention)
    decreases |place|
  {
    if place == [] then c.mention == m
    else place[0] < |c.children| && !Unreadable(c.mention) && Stands(c.children[place[0]], place[1..], m)
  }

  predicate Unreadable(m: Mention) {
    match m
    case Assembly(_, read, _) => !read
    case _ => false
  }

  /** An expression, a cleanup attribute or text that was read names the function. */
  predicate Tells(m: Mention, f: Fn) {
    match m
    case Plain => false
    case Reference(fns, _) => f in fns
    case Cleanup(fns) => f in fns
    case Assembly(_, read, fns) => read && f in fns
  }

  /** The name is of no function of the repository, and of one that loads or looks up code. */
  predicate BringsCode(m: Mention) {
    m.Reference? && m.fns == [] && m.loadsCode
  }

  /** Text other than an asm label that could not be read. */
  predicate Hides(m: Mention) {
    m.Assembly? && !m.isLabel && !m.read
  }

  lemma {:induction false} ChildStands(c: Code, k: nat, place: seq<nat>, m: Mention)
    requires k < |c.children| && !Unreadable(c.mention) && Stands(c.children[k], place, m)
    ensures Stands(c, [k] + place, m)
  {
    assert ([k] + place)[1..] == place;
  }

  lemma {:induction false} NamesStand(c: Code, f: Fn) returns (place: seq<nat>, m: Mention)
    requires f in Names(c)
    ensures Stands(c, place, m) && Tells(m, f)
    decreases c, |c.children| + 1
  {
    if f in Own(c.mention) { return [], c.mention; }
    place, m := NamesStandIn(c, |c.children|, f);
  }

  lemma {:induction false} NamesStandIn(c: Code, k: nat, f: Fn) returns (place: seq<nat>, m: Mention)
    requires k <= |c.children| && f in NamesIn(c, k) && !Unread(c.mention)
    ensures Stands(c, place, m) && Tells(m, f)
    decreases c, k
  {
    if f in Names(c.children[k-1]) {
      place, m := NamesStand(c.children[k-1], f);
      ChildStands(c, k - 1, place, m);
      place := [k - 1] + place;
    } else {
      place, m := NamesStandIn(c, k - 1, f);
    }
  }

  lemma {:induction false} ChildNames(c: Code, i: nat, k: nat)
    requires i < k <= |c.children|
    ensures Names(c.children[i]) <= NamesIn(c, k)
  {
    if i < k - 1 { ChildNames(c, i, k - 1); }
  }

  lemma {:induction false} StandNames(c: Code, place: seq<nat>, m: Mention, f: Fn)
    requires Stands(c, place, m) && Tells(m, f)
    ensures f in Names(c)
    decreases |place|
  {
    if place != [] {
      StandNames(c.children[place[0]], place[1..], m, f);
      ChildNames(c, place[0], |c.children|);
    }
  }

  lemma {:induction false} NamesExactly(c: Code, f: Fn)
    ensures f in Names(c) <==> exists place, m :: Stands(c, place, m) && Tells(m, f)
  {
    if f in Names(c) {
      var place, m := NamesStand(c, f);
      assert exists q, n :: Stands(c, q, n) && Tells(n, f);
    } else if place, m :| Stands(c, place, m) && Tells(m, f) {
      StandNames(c, place, m, f);
    }
  }

  lemma {:induction false} LoadsStand(c: Code) returns (place: seq<nat>, m: Mention)
    requires Loads(c)
    ensures Stands(c, place, m) && BringsCode(m)
    decreases c
  {
    if BringsCode(c.mention) { return [], c.mention; }
    var i :| 0 <= i < |c.children| && Loads(c.children[i]);
    place, m := LoadsStand(c.children[i]);
    ChildStands(c, i, place, m);
    place := [i] + place;
  }

  lemma {:induction false} StandLoads(c: Code, place: seq<nat>, m: Mention)
    requires Stands(c, place, m) && BringsCode(m)
    ensures Loads(c)
    decreases |place|
  {
    if place != [] { StandLoads(c.children[place[0]], place[1..], m); }
  }

  lemma {:induction false} LoadsExactly(c: Code)
    ensures Loads(c) <==> exists place, m :: Stands(c, place, m) && BringsCode(m)
  {
    if Loads(c) {
      var place, m := LoadsStand(c);
      assert exists q, n :: Stands(c, q, n) && BringsCode(n);
    } else if place, m :| Stands(c, place, m) && BringsCode(m) {
      StandLoads(c, place, m);
    }
  }

  lemma {:induction false} OpaqueStand(c: Code) returns (place: seq<nat>, m: Mention)
    requires Opaque(c)
    ensures Stands(c, place, m) && Hides(m)
    decreases c
  {
    if Unread(c.mention) { return [], c.mention; }
    var i :| 0 <= i < |c.children| && Opaque(c.children[i]);
    place, m := OpaqueStand(c.children[i]);
    ChildStands(c, i, place, m);
    place := [i] + place;
  }

  lemma {:induction false} StandOpaque(c: Code, place: seq<nat>, m: Mention)
    requires Stands(c, place, m) && Hides(m)
    ensures Opaque(c)
    decreases |place|
  {
    if place != [] { StandOpaque(c.children[place[0]], place[1..], m); }
  }

  lemma {:induction false} OpaqueExactly(c: Code)
    ensures Opaque(c) <==> exists place, m :: Stands(c, place, m) && Hides(m)
  {
    if Opaque(c) {
      var place, m := OpaqueStand(c);
      assert exists q, n :: Stands(c, q, n) && Hides(n);
    } else if place, m :| Stands(c, place, m) && Hides(m) {
      StandOpaque(c, place, m);
    }
  }

  // ----- where they stand -----

  /** The code is in a definition of the function, or with None outside every function body. */
  predicate Holding(d: Decl, home: Option<Fn>, code: Code) {
    match d
    case OtherDecl(c) => home.None? && c == code
    case FunctionDecl(fn, _, _, parts) =>
      exists k :: 0 <= k < |parts| && PartHolding(fn, parts[k], home, code)
  }

  predicate PartHolding(fn: Option<Fn>, part: Part, home: Option<Fn>, code: Code) {
    match part
    case Constructor => false
    case Body(c) => c == code && fn.Some? && home == fn
    case AsmLabel(_, c) => c == code && home.None?
    case OtherPart(c) => c == code && home.None?
  }

  /** Some declaration holds the node. */
  ghost predicate Says(decls: seq<Decl>, home: Option<Fn>, m: Mention) {
    exists d, code, place :: d in decls && Holding(d, home, code) && Stands(code, place, m)
  }

  /** The function is run or called from outside by what its declaration says of itself: a constructor
      or destructor, an assembler name written for it, or an external function a platform header
      declares. */
  predicate Starts(d: Decl, f: Fn) {
    && d.FunctionDecl? && d.fn == Some(f)
    && ((d.external && d.reserved) || exists k :: 0 <= k < |d.parts| && StartsPart(d.parts[k]))
  }

  predicate StartsPart(part: Part) {
    part.Constructor? || (part.AsmLabel? && part.written)
  }

  lemma {:induction false} PartsRootsAt(fn: Option<Fn>, parts: seq<Part>, f: Fn)
    ensures f in PartsRoots(fn, parts) <==> exists k :: 0 <= k < |parts| && f in PartRoots(fn, parts[k])
  {
    if parts != [] { PartsRootsAt(fn, parts[..|parts|-1], f); }
  }

  lemma {:induction false} PartsNamesAt(parts: seq<Part>, f: Fn)
    ensures f in PartsNames(parts) <==> exists k :: 0 <= k < |parts| && parts[k].Body? && f in Names(parts[k].code)
  {
    if parts != [] { PartsNamesAt(parts[..|parts|-1], f); }
  }

  lemma {:induction false} RootsAt(decls: seq<Decl>, f: Fn)
    ensures f in Roots(decls) <==> exists d :: d in decls && f in DeclRoots(d)
  {
    if decls != [] { RootsAt(decls[..|decls|-1], f); assert decls == decls[..|decls|-1] + [decls[|decls|-1]]; }
  }

  lemma {:induction false} NamedByAt(decls: seq<Decl>, f: Fn, g: Fn)
    ensures g in NamedBy(decls, f) <==> exists d :: d in decls && g in DeclNames(d, f)
  {
    if decls != [] { NamedByAt(decls[..|decls|-1], f, g); assert decls == decls[..|decls|-1] + [decls[|decls|-1]]; }
  }

  lemma {:induction false} ExternalsExactly(decls: seq<Decl>, f: Fn)
    ensures f in Externals(decls) <==> exists d :: d in decls && d.FunctionDecl? && d.fn == Some(f) && d.external
  {
    if decls != [] { ExternalsExactly(decls[..|decls|-1], f); assert decls == decls[..|decls|-1] + [decls[|decls|-1]]; }
  }

  /** A node of the declaration tells so. */
  ghost predicate DeclTells(d: Decl, home: Option<Fn>, f: Fn) {
    exists code :: Holding(d, home, code) && f in Names(code)
  }

  lemma {:induction false} DeclRootsExactly(d: Decl, f: Fn)
    ensures f in DeclRoots(d) <==> DeclTells(d, None, f) || Starts(d, f)
  {
    if d.FunctionDecl? {
      PartsRootsAt(d.fn, d.parts, f);
      forall k | 0 <= k < |d.parts|
        ensures f in PartRoots(d.fn, d.parts[k]) <==>
                (d.fn == Some(f) && StartsPart(d.parts[k]))
                || exists code :: PartHolding(d.fn, d.parts[k], None, code) && f in Names(code)
      {
        PartRootsExactly(d.fn, d.parts[k], f);
      }
    } else {
      assert Holding(d, None, d.code);
    }
  }

  lemma {:induction false} PartRootsExactly(fn: Option<Fn>, part: Part, f: Fn)
    ensures f in PartRoots(fn, part) <==>
            (fn == Some(f) && StartsPart(part))
            || exists code :: PartHolding(fn, part, None, code) && f in Names(code)
  {
    match part
    case AsmLabel(_, c) => assert PartHolding(fn, part, None, c);
    case OtherPart(c) => assert PartHolding(fn, part, None, c);
    case _ =>
  }

  lemma {:induction false} DeclNamesExactly(d: Decl, f: Fn, g: Fn)
    ensures g in DeclNames(d, f) <==> DeclTells(d, Some(f), g)
  {
    if d.FunctionDecl? && d.fn == Some(f) {
      PartsNamesAt(d.parts, g);
      if k :| 0 <= k < |d.parts| && d.parts[k].Body? && g in Names(d.parts[k].code) {
        assert PartHolding(d.fn, d.parts[k], Some(f), d.parts[k].code);
        assert Holding(d, Some(f), d.parts[k].code);
      }
    }
  }

  lemma {:induction false} TellsSays(decls: seq<Decl>, home: Option<Fn>, f: Fn)
    ensures (exists d :: d in decls && DeclTells(d, home, f)) <==> (exists m :: Says(decls, home, m) && Tells(m, f))
  {
    if d :| d in decls && DeclTells(d, home, f) {
      var code :| Holding(d, home, code) && f in Names(code);
      var place, m := NamesStand(code, f);
      assert Says(decls, home, m);
    }
    if m :| Says(decls, home, m) && Tells(m, f) {
      var d, code, place :| d in decls && Holding(d, home, code) && Stands(code, place, m);
      StandNames(code, place, m, f);
      assert DeclTells(d, home, f);
    }
  }

  /** Running starts at what a node outside every body names, and at what its declaration starts. */
  lemma {:induction false} RootsExactly(decls: seq<Decl>, f: Fn)
    ensures f in Roots(decls) <==>
            (exists m :: Says(decls, None, m) && Tells(m, f)) || (exists d :: d in decls && Starts(d, f))
  {
    RootsAt(decls, f);
    TellsSays(decls, None, f);
    forall d ensures f in DeclRoots(d) <==> DeclTells(d, None, f) || Starts(d, f) { DeclRootsExactly(d, f); }
  }

  /** A function names what the nodes of its definitions tell. */
  lemma {:induction false} NamedByExactly(decls: seq<Decl>, f: Fn, g: Fn)
    ensures g in NamedBy(decls, f) <==> exists m :: Says(decls, Some(f), m) && Tells(m, g)
  {
    NamedByAt(decls, f, g);
    TellsSays(decls, Some(f), g);
    forall d ensures g in DeclNames(d, f) <==> DeclTells(d, Some(f), g) { DeclNamesExactly(d, f, g); }
  }

  /** Some node that is looked at loads code. */
  lemma {:induction false} AnyLoadsExactly(decls: seq<Decl>)
    ensures AnyLoads(decls) <==> exists home, m :: Says(decls, home, m) && BringsCode(m)
  {
    if i :| 0 <= i < |decls| && DeclLoads(decls[i]) {
      var home, code := DeclLoadsHeld(decls[i]);
      var place, m := LoadsStand(code);
      assert Says(decls, home, m);
    }
    if home, m :| Says(decls, home, m) && BringsCode(m) {
      var d, code, place :| d in decls && Holding(d, home, code) && Stands(code, place, m);
      StandLoads(code, place, m);
      HeldLoads(d, home, code);
    }
  }

  lemma {:induction false} DeclLoadsHeld(d: Decl) returns (home: Option<Fn>, code: Code)
    requires DeclLoads(d)
    ensures Holding(d, home, code) && Loads(code)
  {
    if d.OtherDecl? { return None, d.code; }
    var i :| 0 <= i < |d.parts| && Visited(d.fn, d.parts[i]) && Loads(PartCode(d.parts[i]));
    home, code := if d.parts[i].Body? then d.fn else None, PartCode(d.parts[i]);
    assert PartHolding(d.fn, d.parts[i], home, code);
  }

  lemma {:induction false} HeldLoads(d: Decl, home: Option<Fn>, code: Code)
    requires Holding(d, home, code) && Loads(code)
    ensures DeclLoads(d)
  {
    if d.FunctionDecl? {
      var k :| 0 <= k < |d.parts| && PartHolding(d.fn, d.parts[k], home, code);
      assert Visited(d.fn, d.parts[k]) && PartCode(d.parts[k]) == code;
    }
  }

  /** Some text that is looked at could not be read. */
  lemma {:induction false} AnyOpaqueExactly(decls: seq<Decl>)
    ensures AnyOpaque(decls) <==> exists home, m :: Says(decls, home, m) && Hides(m)
  {
    if i :| 0 <= i < |decls| && DeclOpaque(decls[i]) {
      var home, code := DeclOpaqueHeld(decls[i]);
      var place, m := OpaqueStand(code);
      assert Says(decls, home, m);
    }
    if home, m :| Says(decls, home, m) && Hides(m) {
      var d, code, place :| d in decls && Holding(d, home, code) && Stands(code, place, m);
      StandOpaque(code, place, m);
      HeldOpaque(d, home, code);
    }
  }

  lemma {:induction false} DeclOpaqueHeld(d: Decl) returns (home: Option<Fn>, code: Code)
    requires DeclOpaque(d)
    ensures Holding(d, home, code) && Opaque(code)
  {
    if d.OtherDecl? { return None, d.code; }
    var i :| 0 <= i < |d.parts| && Visited(d.fn, d.parts[i]) && Opaque(PartCode(d.parts[i]));
    home, code := if d.parts[i].Body? then d.fn else None, PartCode(d.parts[i]);
    assert PartHolding(d.fn, d.parts[i], home, code);
  }

  lemma {:induction false} HeldOpaque(d: Decl, home: Option<Fn>, code: Code)
    requires Holding(d, home, code) && Opaque(code)
    ensures DeclOpaque(d)
  {
    if d.FunctionDecl? {
      var k :| 0 <= k < |d.parts| && PartHolding(d.fn, d.parts[k], home, code);
      assert Visited(d.fn, d.parts[k]) && PartCode(d.parts[k]) == code;
    }
  }

  // ----- what runs, by chains of names -----

  /** Where the program can be entered: main, what the text starts, and with code nobody read every
      external function. */
  ghost predicate Entry(p: Program, f: Fn) {
    || f == p.main
    || (exists m :: Says(p.decls, None, m) && Tells(m, f))
    || (exists d :: d in p.decls && Starts(d, f))
    || (p.outside && exists d :: d in p.decls && d.FunctionDecl? && d.fn == Some(f) && d.external)
  }

  /** A node in a definition of the one function names the other. */
  ghost predicate Leads(p: Program, f: Fn, g: Fn) {
    exists m :: Says(p.decls, Some(f), m) && Tells(m, g)
  }

  ghost predicate Chain(p: Program, fs: seq<Fn>) {
    fs != [] && Entry(p, fs[0]) && forall k :: 0 < k < |fs| ==> Leads(p, fs[k-1], fs[k])
  }

  ghost predicate Chained(p: Program, f: Fn) {
    exists fs :: Chain(p, fs) && fs[|fs|-1] == f
  }

  lemma {:induction false} ChainNext(p: Program, f: Fn, g: Fn)
    requires Chained(p, f) && Leads(p, f, g)
    ensures Chained(p, g)
  {
    var fs :| Chain(p, fs) && fs[|fs|-1] == f;
    assert Chain(p, fs + [g]);
  }

  lemma {:induction false} EntryExactly(p: Program, f: Fn)
    ensures Entry(p, f) <==>
            f == p.main || f in Roots(p.decls) || (p.outside && f in Externals(p.decls))
  {
    RootsExactly(p.decls, f);
    ExternalsExactly(p.decls, f);
  }

  lemma {:induction false} EntryChained(p: Program, f: Fn)
    requires Entry(p, f)
    ensures Chained(p, f)
  {
    assert Chain(p, [f]);
  }

  ghost predicate AllChained(p: Program, s: State) {
    (forall f :: f in s.stack ==> Chained(p, f)) && (forall f :: f in s.memory ==> Chained(p, f))
  }

  lemma {:induction false} StepChained(p: Program, s: State, step: Step)
    requires AllChained(p, s) && Enabled(p, s, step)
    ensures AllChained(p, Take(p, s, step))
  {
    var next := Take(p, s, step);
    match step
    case Call(g) => TopChained(p, s, g);
    case Keep(g) => TopChained(p, s, g);
    case Leave => assert forall f :: f in next.stack ==> f in s.stack;
    case Callback(g) => if g !in s.memory { EntryExactly(p, g); EntryChained(p, g); }
    case Intrude(g) => EntryExactly(p, g); EntryChained(p, g);
  }

  lemma {:induction false} TopChained(p: Program, s: State, g: Fn)
    requires AllChained(p, s) && s.stack != [] && (g in NamedBy(p.decls, s.stack[|s.stack|-1]) || g in s.memory)
    ensures Chained(p, g)
  {
    if g !in s.memory {
      var f := s.stack[|s.stack|-1];
      NamedByExactly(p.decls, f, g);
      ChainNext(p, f, g);
    }
  }

  lemma {:induction false} RunChained(p: Program, s: State, steps: seq<Step>)
    requires AllChained(p, s) && IsRun(p, s, steps)
    ensures AllChained(p, Final(p, s, steps))
    decreases |steps|
  {
    if steps != [] {
      StepChained(p, s, steps[0]);
      RunChained(p, Take(p, s, steps[0]), steps[1..]);
    }
  }

  lemma {:induction false} ChainRuns(p: Program, fs: seq<Fn>, n: nat)
    requires Chain(p, fs) && n < |fs|
    ensures OnTop(p, fs[n])
  {
    if n == 0 {
      EntryExactly(p, fs[0]);
      if fs[0] == p.main { assert IsRun(p, Start(p), []) && TopIs(Final(p, Start(p), []), p.main); }
      else if fs[0] in Roots(p.decls) { PushedOnTop(p, [], Callback(fs[0]), fs[0]); }
      else { PushedOnTop(p, [], Intrude(fs[0]), fs[0]); }
    } else {
      ChainRuns(p, fs, n - 1);
      var steps :| IsRun(p, Start(p), steps) && TopIs(Final(p, Start(p), steps), fs[n-1]);
      NamedByExactly(p.decls, fs[n-1], fs[n]);
      PushedOnTop(p, steps, Call(fs[n]), fs[n]);
    }
  }

  /** Some run executes a function exactly when a chain of names leads to it. */
  lemma {:induction false} ExecutesExactly(p: Program, f: Fn)
    ensures Executes(p, f) <==> Chained(p, f)
  {
    if Executes(p, f) {
      var steps :| IsRun(p, Start(p), steps) && f in Final(p, Start(p), steps).stack;
      forall g | g in Start(p).stack || g in Start(p).memory ensures Chained(p, g) {
        EntryExactly(p, g);
        EntryChained(p, g);
      }
      RunChained(p, Start(p), steps);
    }
    if fs :| Chain(p, fs) && fs[|fs|-1] == f {
      ChainRuns(p, fs, |fs| - 1);
      var steps :| IsRun(p, Start(p), steps) && TopIs(Final(p, Start(p), steps), f);
      assert f in Final(p, Start(p), steps).stack;
    }
  }

  /** Returning from a call gives the caller back its stack; what was put in memory stays. */
  lemma {:induction false} ReturnGivesBack(p: Program, s: State, g: Fn)
    requires Enabled(p, s, Call(g))
    ensures Take(p, Take(p, s, Call(g)), Leave) == s
  {
    assert (s.stack + [g])[..|s.stack|] == s.stack;
  }
}

/** Provenance of figures in prose (backend/app/agent/guard.py). Finite floats are exact reals, and a
    leaf may be infinite; extracting literals from text is not modelled, so a text is its sequence of
    figures. */
module Guard {
  import opened Arithmetic
  import opened Models

  /** A JSON-like value. A dictionary's keys are never looked at. */
  datatype Payload =
    | Number(value: Ratio)
    | Flag(b: bool)
    | Other
    | List(items: seq<Payload>)
    | Dict(values: seq<Payload>)

  /** The numeric leaves, left to right; truth values are not quantities. */
  function Leaves(p: Payload): seq<Ratio> {
    match p
    case Number(v) => [v]
    case List(items) => LeavesOf(items)
    case Dict(values) => LeavesOf(values)
    case _ => []
  }

  function LeavesOf(ps: seq<Payload>): seq<Ratio> {
    if ps == [] then [] else Leaves(ps[0]) + LeavesOf(ps[1..])
  }

  /** What stands at a path of positions inside a payload. */
  function AtPath(p: Payload, path: seq<nat>): Option<Payload> {
    if path == [] then Some(p)
    else
      match p
      case List(items) => if path[0] < |items| then AtPath(items[path[0]], path[1..]) else None
      case Dict(values) => if path[0] < |values| then AtPath(values[path[0]], path[1..]) else None
      case _ => None
  }

  lemma {:induction false} LeavesOfItems(ps: seq<Payload>, v: Ratio)
    ensures v in LeavesOf(ps) <==> exists i :: 0 <= i < |ps| && v in Leaves(ps[i])
  {
    if ps != [] {
      LeavesOfItems(ps[1..], v);
      assert forall i :: 1 <= i < |ps| ==> ps[i] == ps[1..][i - 1];
    }
  }

  lemma {:induction false} LeafHasPath(p: Payload, v: Ratio) returns (path: seq<nat>)
    requires v in Leaves(p)
    ensures AtPath(p, path) == Some(Number(v))
  {
    if p.Number? { return []; }
    var items := Children(p);
    LeavesOfItems(items, v);
    var i: nat :| i < |items| && v in Leaves(items[i]);
    var rest := LeafHasPath(items[i], v);
    path := [i] + rest;
    assert path[1..] == rest;
  }

  lemma {:induction false} PathHasLeaf(p: Payload, path: seq<nat>, v: Ratio)
    requires AtPath(p, path) == Some(Number(v))
    ensures v in Leaves(p)
    decreases path
  {
    if path != [] {
      var items := Children(p);
      PathHasLeaf(items[path[0]], path[1..], v);
      LeavesOfItems(items, v);
    }
  }

  /** The leaves are the numbers found anywhere inside, through lists and dictionaries alike. */
  lemma LeafIffPath(p: Payload, v: Ratio)
    ensures v in Leaves(p) <==> exists path :: AtPath(p, path) == Some(Number(v))
  {
    if v in Leaves(p) { var path := LeafHasPath(p, v); }
    if path :| AtPath(p, path) == Some(Number(v)) { PathHasLeaf(p, path, v); }
  }

  function Size(p: Payload): nat {
    match p
    case List(items) => 1 + SizeOf(items)
    case Dict(values) => 1 + SizeOf(values)
    case _ => 1
  }

  function SizeOf(ps: seq<Payload>): nat {
    if ps == [] then 0 else Size(ps[0]) + SizeOf(ps[1..])
  }

  lemma {:induction false} OfConcat(a: seq<Payload>, b: seq<Payload>)
    ensures LeavesOf(a + b) == LeavesOf(a) + LeavesOf(b)
    ensures SizeOf(a + b) == SizeOf(a) + SizeOf(b)
  {
    if a == [] {
      assert a + b == b;
    } else {
      assert (a + b)[1..] == a[1..] + b;
      OfConcat(a[1..], b);
    }
  }

  lemma OfOne(p: Payload)
    ensures LeavesOf([p]) == Leaves(p) && SizeOf([p]) == Size(p)
  {
  }

  function Reverse(s: seq<Ratio>): seq<Ratio> {
    if s == [] then [] else Reverse(s[1..]) + [s[0]]
  }

  lemma {:induction false} ReverseConcat(a: seq<Ratio>, b: seq<Ratio>)
    ensures Reverse(a + b) == Reverse(b) + Reverse(a)
  {
    if a == [] {
      assert a + b == b;
    } else {
      assert (a + b)[1..] == a[1..] + b;
      ReverseConcat(a[1..], b);
    }
  }

  lemma {:induction false} ReverseSame(s: seq<Ratio>)
    ensures multiset(Reverse(s)) == multiset(s)
  {
    if s != [] {
      ReverseSame(s[1..]);
      assert s == [s[0]] + s[1..];
    }
  }

  /** The worklist ends, and collects each numeric leaf of the payload exactly once: a last-in,
      first-out stack yields them right to left. */
  method CollectNumbers(payload: Payload) returns (found: seq<Ratio>)
    ensures found == Reverse(Leaves(payload))
    ensures multiset(found) == multiset(Leaves(payload))
  {
    found := [];
    var stack := [payload];
    OfOne(payload);
    while stack != []
      invariant found + Reverse(LeavesOf(stack)) == Reverse(Leaves(payload))
      decreases SizeOf(stack)
    {
      var item, rest := stack[|stack| - 1], stack[..|stack| - 1];
      Popped(stack);
      Assoc(found, Own(item), Reverse(LeavesOf(rest + Children(item))));
      if item.Number? { found := found + [item.value]; } else { assert found + [] == found; }
      stack := rest + Children(item);
    }
    assert found + [] == found;
    ReverseSame(Leaves(payload));
  }

  lemma Assoc(a: seq<Ratio>, b: seq<Ratio>, c: seq<Ratio>)
    ensures (a + b) + c == a + (b + c)
  {
  }

  function Children(p: Payload): seq<Payload> {
    match p
    case List(items) => items
    case Dict(values) => values
    case _ => []
  }

  function Own(p: Payload): seq<Ratio> {
    if p.Number? then [p.value] else []
  }

  lemma {:induction false} OwnAndChildren(p: Payload)
    ensures Reverse(Leaves(p)) == Own(p) + Reverse(LeavesOf(Children(p)))
    ensures Size(p) == 1 + SizeOf(Children(p))
  {
  }

  /** Popping an item and pushing its children accounts for all of its leaves. */
  lemma {:induction false} Popped(stack: seq<Payload>)
    requires stack != []
    ensures var item, rest := stack[|stack| - 1], stack[..|stack| - 1];
            && Reverse(LeavesOf(stack)) == Own(item) + Reverse(LeavesOf(rest + Children(item)))
            && SizeOf(rest + Children(item)) < SizeOf(stack)
  {
    var item, rest := stack[|stack| - 1], stack[..|stack| - 1];
    assert stack == rest + [item];
    OfConcat(rest, [item]);
    OfOne(item);
    OwnAndChildren(item);
    OfConcat(rest, Children(item));
    ReverseConcat(LeavesOf(rest), Leaves(item));
    ReverseConcat(LeavesOf(rest), LeavesOf(Children(item)));
    Assoc(Own(item), Reverse(LeavesOf(Children(item))), Reverse(LeavesOf(rest)));
  }

  // ---- Judging a text --------------------------------------------------------------------------

  const REL_TOL := 0.005
  const ALLOWED_BARE: set<real> := {0.0, 1.0, 2.0, 3.0, 4.0, 5.0, 10.0, 100.0, 1000.0, 10000.0}

  function Abs(x: real): real { if x < 0.0 then -x else x }

  function Larger(x: real, y: real): real { if x >= y then x else y }

  function RoundTo(x: real, scale: real): real
    requires scale > 0.0
  {
    Round(x * scale) as real / scale
  }

  /** The ways a value may be written: its whole part; itself, as a percentage, as a percentage or a ratio of
      basis points, a large one in millions and a very large one in WAD, each as it is or rounded. */
  datatype Form = Whole | Scaled(factor: real, steps: Option<real>)

  const FORMS: seq<Form> := [
    Scaled(1.0, None), Scaled(1.0, Some(100.0)), Scaled(1.0, Some(10000.0)), Whole,
    Scaled(100.0, None), Scaled(100.0, Some(100.0)), Scaled(1.0 / 100.0, None), Scaled(1.0 / 100.0, Some(100.0)),
    Scaled(1.0 / 10000.0, None), Scaled(1.0 / 10000.0, Some(10000.0))]

  const MILLIONS: seq<Form> := [Scaled(1.0 / 1000000.0, None), Scaled(1.0 / 1000000.0, Some(100.0))]

  const WADS: seq<Form> := [
    Scaled(1.0 / 1000000000000000000.0, None), Scaled(1.0 / 1000000000000000000.0, Some(10000.0))]

  function FormsFor(v: real): seq<Form> {
    FORMS + (if Abs(v) >= 1000000.0 then MILLIONS else []) + (if Abs(v) >= 10000000000000000.0 then WADS else [])
  }

  function Multiple(v: real, factor: real): real { v * factor }

  function Render(v: real, form: Form): real {
    match form
    case Whole => Trunc(v) as real
    case Scaled(factor, steps) =>
      if steps.Some? && steps.value > 0.0 then RoundTo(Multiple(v, factor), steps.value) else Multiple(v, factor)
  }

  /** Ways one backed figure may appear in prose. */
  function Renderings(v: real): set<real> {
    set k | 0 <= k < |FormsFor(v)| :: Render(v, FormsFor(v)[k])
  }

  lemma ItselfIsARendering(v: real)
    ensures v in Renderings(v)
  {
    assert FormsFor(v)[0] == FORMS[0];
    assert Render(v, FormsFor(v)[0]) == v;
  }

  predicate Close(found: real, c: real, relTol: real) {
    Abs(found - c) <= Larger(relTol * Larger(Abs(found), Abs(c)), 0.000000001)
  }

  /** The figure is small talk, or some observed value can be written like it. */
  ghost predicate Backed(found: real, allowed: seq<Ratio>, relTol: real) {
    found in ALLOWED_BARE || exists v, c :: Finite(v) in allowed && c in Renderings(v) && Close(found, c, relTol)
  }

  ghost function Unbacked(figures: seq<real>, allowed: seq<Ratio>, relTol: real): seq<real> {
    if figures == [] then []
    else
      var n := |figures| - 1;
      Unbacked(figures[..n], allowed, relTol) + (if Backed(figures[n], allowed, relTol) then [] else [figures[n]])
  }

  lemma {:induction false} NothingUnbacked(figures: seq<real>, allowed: seq<Ratio>, relTol: real)
    ensures Unbacked(figures, allowed, relTol) == [] <==> forall f :: f in figures ==> Backed(f, allowed, relTol)
  {
    if figures != [] {
      var n := |figures| - 1;
      NothingUnbacked(figures[..n], allowed, relTol);
      assert figures == figures[..n] + [figures[n]];
    }
  }

  datatype Verdict = Verdict(ok: bool, unverified: seq<real>)

  /** What the text is judged to be: nothing at all once an infinite value was observed, whatever the
      text says, because taking its integer part raises; otherwise its unbacked figures. */
  ghost function Judge(figures: seq<real>, allowed: seq<Ratio>, relTol: real): Option<Verdict> {
    if Infinite in allowed then None
    else
      var unverified := Unbacked(figures, allowed, relTol);
      Some(Verdict(unverified == [], unverified))
  }

  /** Further off than the tolerance: a relative one of the larger figure, or a billionth. */
  predicate Far(found: real, c: real, relTol: real) {
    var gap := if found >= c then found - c else c - found;
    gap > 0.000000001 && gap > relTol * Abs(found) && gap > relTol * Abs(c)
  }

  lemma CloseOrFar(found: real, c: real, relTol: real)
    requires relTol >= 0.0
    ensures Close(found, c, relTol) <==> !Far(found, c, relTol)
  {
    ToleranceIs(Abs(found - c), relTol, Abs(found), Abs(c));
  }

  lemma ToleranceIs(gap: real, t: real, x: real, y: real)
    requires t >= 0.0
    ensures gap <= Larger(t * Larger(x, y), 0.000000001) <==> gap <= 0.000000001 || gap <= t * x || gap <= t * y
  {
    LargerTimes(t, x, y);
  }

  lemma LargerTimes(t: real, x: real, y: real)
    requires t >= 0.0
    ensures t * Larger(x, y) == Larger(t * x, t * y)
  {
    if x >= y {
      TimesGrows(t, y, x);
      assert Larger(x, y) == x;
    } else {
      TimesGrows(t, x, y);
      assert Larger(x, y) == y;
    }
  }

  lemma TimesGrows(d: real, low: real, high: real)
    requires d >= 0.0 && low <= high
    ensures d * low <= d * high
  {
    assert d * (high - low) >= 0.0;
  }

  /** Small talk: whole numbers up to five, and ten to ten thousand by powers of ten. */
  lemma BareWhen(f: real)
    ensures f in ALLOWED_BARE <==>
              (f == f.Floor as real && 0.0 <= f <= 5.0) || f == 10.0 || f == 100.0 || f == 1000.0 || f == 10000.0
  {
    if f == f.Floor as real && 0.0 <= f <= 5.0 {
      var n := f.Floor;
      assert n == 0 || n == 1 || n == 2 || n == 3 || n == 4 || n == 5;
    }
  }

  /** A figure is flagged exactly when it is no small talk and every rendering of every observed value is
      further off than the tolerance; each time it appears, and nothing else is. */
  lemma {:induction false} FlaggedWhen(figures: seq<real>, allowed: seq<Ratio>, relTol: real, f: real)
    requires relTol >= 0.0
    ensures multiset(Unbacked(figures, allowed, relTol))[f]
         == if f !in ALLOWED_BARE && forall v, c :: Finite(v) in allowed && c in Renderings(v) ==> Far(f, c, relTol)
            then multiset(figures)[f] else 0
  {
    if figures != [] {
      var n := |figures| - 1;
      assert figures == figures[..n] + [figures[n]];
      FlaggedWhen(figures[..n], allowed, relTol, f);
      BackedWhen(figures[n], allowed, relTol);
    }
  }

  lemma BackedWhen(f: real, allowed: seq<Ratio>, relTol: real)
    requires relTol >= 0.0
    ensures Backed(f, allowed, relTol)
            <==> f in ALLOWED_BARE || !forall v, c :: Finite(v) in allowed && c in Renderings(v) ==> Far(f, c, relTol)
  {
    forall c
      ensures Close(f, c, relTol) <==> !Far(f, c, relTol)
    {
      CloseOrFar(f, c, relTol);
    }
  }

  /** A multiple of the step, at most half a step away. */
  ghost predicate RoundedTo(c: real, x: real, scale: real) {
    exists n: int :: IsRounding(n, c, x, scale)
  }

  predicate IsRounding(n: int, c: real, x: real, scale: real) {
    c * scale == n as real && n as real - 0.5 <= x * scale <= n as real + 0.5
  }

  /** `c` is the value in this form: its part before the point, a multiple of it, or the multiple rounded. */
  ghost predicate WrittenIn(v: real, c: real, form: Form) {
    match form
    case Whole => Abs(c) <= Abs(v) < Abs(c) + 1.0 && c == c.Floor as real
    case Scaled(factor, steps) =>
      if steps.Some? && steps.value > 0.0 then RoundedTo(c, Multiple(v, factor), steps.value) else c == Multiple(v, factor)
  }

  lemma RenderIs(v: real, form: Form)
    ensures WrittenIn(v, Render(v, form), form)
  {
    match form
    case Whole => WholePart(v);
    case Scaled(factor, steps) =>
      if steps.Some? && steps.value > 0.0 {
        var x := Multiple(v, factor);
        RoundToIs(x, steps.value);
        assert Render(v, form) == RoundTo(x, steps.value);
      }
  }

  predicate Steps(form: Form, steps: real) {
    form.Scaled? && (form.steps == None || form.steps == Some(steps))
  }

  /** The forms for a value: its whole part; itself to the hundredth or ten-thousandth; a hundred times it or a
      hundredth of it, to the hundredth; a ten-thousandth of it, to the ten-thousandth; from a million on a
      millionth, to the hundredth; from ten to the sixteenth on the 10^18th part, to the ten-thousandth. */
  lemma FormsAre(v: real, form: Form)
    ensures form in FormsFor(v) <==>
              || form.Whole?
              || (form.factor == 1.0 && (Steps(form, 100.0) || Steps(form, 10000.0)))
              || (form.factor == 100.0 && Steps(form, 100.0))
              || (form.factor * 100.0 == 1.0 && Steps(form, 100.0))
              || (form.factor * 10000.0 == 1.0 && Steps(form, 10000.0))
              || (form.factor * 1000000.0 == 1.0 && Steps(form, 100.0) && Abs(v) >= 1000000.0)
              || (form.factor * 1000000000000000000.0 == 1.0 && Steps(form, 10000.0) && Abs(v) >= 10000000000000000.0)
  {
    var f := form;
    assert f in FORMS <==> f == FORMS[0] || f == FORMS[1] || f == FORMS[2] || f == FORMS[3] || f == FORMS[4]
                           || f == FORMS[5] || f == FORMS[6] || f == FORMS[7] || f == FORMS[8] || f == FORMS[9];
    assert f in MILLIONS <==> f == MILLIONS[0] || f == MILLIONS[1];
    assert f in WADS <==> f == WADS[0] || f == WADS[1];
  }

  /** Every rendering of a value is the value in a form for its size. */
  lemma RenderingsAre(v: real, c: real)
    requires c in Renderings(v)
    ensures exists k :: 0 <= k < |FormsFor(v)| && WrittenIn(v, c, FormsFor(v)[k])
  {
    var k :| 0 <= k < |FormsFor(v)| && c == Render(v, FormsFor(v)[k]);
    RenderIs(v, FormsFor(v)[k]);
  }

  lemma WholePart(v: real)
    ensures var c := Trunc(v) as real; Abs(c) <= Abs(v) < Abs(c) + 1.0 && c == c.Floor as real
  {
  }

  lemma RoundToIs(x: real, scale: real)
    requires scale > 0.0
    ensures RoundedTo(RoundTo(x, scale), x, scale)
  {
    var y := x * scale;
    RoundNear(y);
    DivTimes(Round(y) as real, scale);
    assert IsRounding(Round(y), RoundTo(x, scale), x, scale);
  }

  lemma RoundNear(y: real)
    ensures Round(y) as real - 0.5 <= y <= Round(y) as real + 0.5
  {
  }

  lemma DivTimes(y: real, scale: real)
    requires scale > 0.0
    ensures y / scale * scale == y
  {
  }

  /** No verdict exactly when some allowed value is infinite; otherwise flags exactly the unbacked
      figures, in order of appearance. */
  method Check(figures: seq<real>, allowed: seq<Ratio>, relTol: real) returns (v: Option<Verdict>)
    ensures v.None? <==> Infinite in allowed
    ensures v == Judge(figures, allowed, relTol)
    ensures v.Some? ==> (v.value.ok <==> forall f :: f in figures ==> Backed(f, allowed, relTol))
  {
    var candidates: set<real> := {};
    for i := 0 to |allowed|
      invariant Infinite !in allowed[..i]
      invariant forall c :: c in candidates <==> exists v :: Finite(v) in allowed[..i] && c in Renderings(v)
    {
      if allowed[i].Infinite? { return None; }
      assert allowed[..i + 1] == allowed[..i] + [allowed[i]];
      Gathered(allowed[..i], allowed[i].value, candidates);
      candidates := candidates + Renderings(allowed[i].value);
    }
    assert allowed[..|allowed|] == allowed;
    var unverified := [];
    for i := 0 to |figures|
      invariant unverified == Unbacked(figures[..i], allowed, relTol)
    {
      var found := figures[i];
      assert figures[..i + 1][..i] == figures[..i];
      Decided(found, allowed, relTol, candidates);
      if found !in ALLOWED_BARE && !(exists c :: c in candidates && Close(found, c, relTol)) {
        unverified := unverified + [found];
      }
    }
    assert figures[..|figures|] == figures;
    NothingUnbacked(figures, allowed, relTol);
    v := Some(Verdict(unverified == [], unverified));
  }

  lemma Gathered(allowed: seq<Ratio>, value: real, candidates: set<real>)
    requires forall c :: c in candidates <==> exists v :: Finite(v) in allowed && c in Renderings(v)
    ensures forall c :: c in candidates + Renderings(value)
                        <==> exists v :: Finite(v) in allowed + [Finite(value)] && c in Renderings(v)
  {
    forall c
      ensures c in candidates + Renderings(value)
              <==> exists v :: Finite(v) in allowed + [Finite(value)] && c in Renderings(v)
    {
      if c in Renderings(value) { assert Finite(value) in allowed + [Finite(value)]; }
      if c in candidates {
        var v :| Finite(v) in allowed && c in Renderings(v);
        assert Finite(v) in allowed + [Finite(value)];
      }
    }
  }

  lemma Decided(found: real, allowed: seq<Ratio>, relTol: real, candidates: set<real>)
    requires forall c :: c in candidates <==> exists v :: Finite(v) in allowed && c in Renderings(v)
    ensures Backed(found, allowed, relTol)
            <==> found in ALLOWED_BARE || exists c :: c in candidates && Close(found, c, relTol)
  {
  }

  class NumberGuard {
    var allowed: seq<Ratio>

    constructor ()
      ensures allowed == []
    {
      allowed := [];
    }

    method Observe(payload: Payload)
      modifies this
      ensures allowed == old(allowed) + Reverse(Leaves(payload))
    {
      var found := CollectNumbers(payload);
      allowed := allowed + found;
    }

    method Verify(figures: seq<real>) returns (v: Option<Verdict>)
      ensures v.None? <==> Infinite in allowed
      ensures v == Judge(figures, allowed, REL_TOL)
      ensures v.Some? ==> (v.value.ok <==> forall f :: f in figures ==> Backed(f, allowed, REL_TOL))
    {
      v := Check(figures, allowed, REL_TOL);
    }
  }

  /** What a guard allows after a conversation. */
  function Observed(payloads: seq<Payload>): seq<Ratio> {
    if payloads == [] then []
    else Observed(payloads[..|payloads| - 1]) + Reverse(Leaves(payloads[|payloads| - 1]))
  }

  lemma {:induction false} ObservedAll(payloads: seq<Payload>, more: seq<Payload>)
    ensures Observed(payloads + more) == Observed(payloads) + Observed(more)
    decreases |more|
  {
    if more == [] {
      assert payloads + more == payloads;
    } else {
      var all := payloads + more;
      assert all[..|all| - 1] == payloads + more[..|more| - 1];
      ObservedAll(payloads, more[..|more| - 1]);
      Assoc(Observed(payloads), Observed(more[..|more| - 1]), Reverse(Leaves(more[|more| - 1])));
    }
  }

  lemma BackedGrows(found: real, allowed: seq<Ratio>, more: seq<Ratio>, relTol: real)
    requires Backed(found, allowed, relTol)
    ensures Backed(found, allowed + more, relTol)
  {
    if found !in ALLOWED_BARE {
      var v, c :| Finite(v) in allowed && c in Renderings(v) && Close(found, c, relTol);
      assert Finite(v) in allowed + more;
    }
  }

  /** Seeing more never flags what was verified before: a text that passed still passes exactly when
      nothing infinite is among what was seen since, and otherwise gets no verdict. */
  lemma ObservingNeverFlags(figures: seq<real>, payloads: seq<Payload>, more: seq<Payload>, relTol: real)
    requires Judge(figures, Observed(payloads), relTol) == Some(Verdict(true, []))
    ensures Judge(figures, Observed(payloads + more), relTol)
         == if Infinite in Observed(more) then None else Some(Verdict(true, []))
  {
    ObservedAll(payloads, more);
    var was, now := Observed(payloads), Observed(payloads + more);
    NothingUnbacked(figures, was, relTol);
    NothingUnbacked(figures, now, relTol);
    forall f | f in figures
      ensures Backed(f, now, relTol)
    {
      BackedGrows(f, was, Observed(more), relTol);
    }
  }

  /** Figures quoted verbatim from anywhere inside observed payloads are never flagged: such a text
      passes exactly when nothing infinite was observed, and otherwise gets no verdict. */
  lemma LeavesAreBacked(figures: seq<real>, payloads: seq<Payload>, relTol: real)
    requires relTol >= 0.0
    requires forall f :: f in figures ==> Quoted(f, payloads)
    ensures Judge(figures, Observed(payloads), relTol)
         == if Infinite in Observed(payloads) then None else Some(Verdict(true, []))
  {
    NothingUnbacked(figures, Observed(payloads), relTol);
    forall f | f in figures
      ensures Backed(f, Observed(payloads), relTol)
    {
      var i :| 0 <= i < |payloads| && Finite(f) in Leaves(payloads[i]);
      LeafIsObserved(payloads, i, Finite(f));
      ItselfIsARendering(f);
      assert Close(f, f, relTol);
    }
  }

  predicate Quoted(f: real, payloads: seq<Payload>) {
    exists i :: 0 <= i < |payloads| && Finite(f) in Leaves(payloads[i])
  }

  lemma {:induction false} LeafIsObserved(payloads: seq<Payload>, i: nat, v: Ratio)
    requires i < |payloads| && v in Leaves(payloads[i])
    ensures v in Observed(payloads)
    decreases |payloads|
  {
    var n := |payloads| - 1;
    if i == n {
      ReverseSame(Leaves(payloads[i]));
      assert v in multiset(Leaves(payloads[i]));
    } else {
      LeafIsObserved(payloads[..n], i, v);
    }
  }
}

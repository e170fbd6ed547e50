/**
 The procedural-rule evaluator that runs in the page: every pass applies actions to
 whatever the rules select, an edit to the document schedules another pass, and each
 action first looks whether there is anything left to do.
 */
module ProceduralSpec {
  import opened Options

  /** Inline style texts: is `display: none` in force, force it, append declarations. */
  datatype Css = Css(hidden: string -> bool, hide: string -> string, append: (string, string) -> string)

  ghost predicate Lawful(css: Css) {
    !css.hidden("") && forall t :: css.hidden(css.hide(t))
  }

  /**
   An element: whether it has a parent, whether it has an inline style at all, its style
   attribute, the style rule remembered on it, its other attributes, and its classes.
   */
  datatype Node = Node(
    linked: bool,
    styleable: bool,
    style: Option<string>,
    mark: Option<string>,
    attrs: set<string>,
    classes: set<string>)

  /** Attribute names are as the document resolves them (in lower case on HTML elements). */
  datatype Action = Hide | Remove | Style(arg: string) | RemoveAttr(name: string) | RemoveClass(name: string)

  function StyleText(n: Node): string {
    if n.style.Some? then n.style.value else ""
  }

  /** One action on one element, and whether it edited the document. */
  function Act(css: Css, n: Node, a: Action): (Node, bool) {
    match a
    case Hide =>
      if !n.styleable || css.hidden(StyleText(n)) then (n, false)
      else (n.(style := Some(css.hide(StyleText(n)))), true)
    case Remove => (n.(linked := false), n.linked)
    case Style(arg) =>
      if n.mark == Some(arg) then (n, false)
      else if !n.styleable then (n.(mark := Some(arg)), false)
      else (n.(mark := Some(arg), style := Some(css.append(StyleText(n), arg))), true)
    case RemoveAttr(name) =>
      if name == "style" then (n.(style := None), n.style.Some?)
      else if name !in n.attrs then (n, false)
      else (n.(attrs := n.attrs - {name}, classes := if name == "class" then {} else n.classes), true)
    case RemoveClass(name) =>
      if name in n.classes then (n.(classes := n.classes - {name}), true) else (n, false)
  }

  /** What the action brings about is missing, to the eye of someone who looks at the page. */
  predicate Missing(css: Css, n: Node, a: Action) {
    match a
    case Hide => !css.hidden(StyleText(n))
    case Remove => n.linked
    case Style(arg) => n.style.None?
    case RemoveAttr(name) => if name == "style" then n.style.Some? else name in n.attrs
    case RemoveClass(name) => name in n.classes
  }

  /** Acting brings the effect about, and acting again edits nothing. */
  lemma ActMeets(css: Css, n: Node, a: Action)
    requires Lawful(css)
    ensures (a.Hide? ==> n.styleable) && (a.Style? ==> n.styleable && n.mark != Some(a.arg)) ==>
      !Missing(css, Act(css, n, a).0, a)
    ensures !Act(css, Act(css, n, a).0, a).1
  {
  }

  /**
   Whatever the page does to an element after an action, short of touching the mark on it:
   once it has undone the action's effect, the next pass does it again if and only if the
   action is not a style rule.
   */
  lemma RedoneIff(css: Css, n: Node, undone: Node, a: Action)
    requires Lawful(css) && undone.styleable && undone.mark == Act(css, n, a).0.mark && Missing(css, undone, a)
    ensures Act(css, undone, a).1 <==> !a.Style?
  {
  }

  /** A style rule alone is not done again when the page strips the style it appended. */
  lemma StrippedStyleStaysOff(css: Css, n: Node, arg: string)
    ensures var stripped := Act(css, n, Style(arg)).0.(style := None); Act(css, stripped, Style(arg)) == (stripped, false)
  {
  }

  datatype Hit = Hit(node: nat, action: Action)

  function ActAt(css: Css, page: seq<Node>, h: Hit): seq<Node> {
    if h.node < |page| then page[h.node := Act(css, page[h.node], h.action).0] else page
  }

  function EditsAt(css: Css, page: seq<Node>, h: Hit): nat {
    if h.node < |page| && Act(css, page[h.node], h.action).1 then 1 else 0
  }

  /** The page after a run of actions, over any number of passes. */
  function After(css: Css, page: seq<Node>, run: seq<Hit>): seq<Node> {
    if run == [] then page else ActAt(css, After(css, page, run[..|run| - 1]), run[|run| - 1])
  }

  function Edits(css: Css, page: seq<Node>, run: seq<Hit>): nat {
    if run == [] then 0
    else Edits(css, page, run[..|run| - 1]) + EditsAt(css, After(css, page, run[..|run| - 1]), run[|run| - 1])
  }

  // ----- the measure

  /**
   What the rules may do to one element without undoing each other for ever: one style
   rule at most, and not both hiding it and removing its style attribute.
   */
  ghost predicate Compatible(page: seq<Node>, hits: set<Hit>) {
    forall i :: 0 <= i < |page| && page[i].styleable ==> Peaceful(hits, i)
  }

  ghost predicate Peaceful(hits: set<Hit>, i: nat) {
    && (forall a, b :: Hit(i, Style(a)) in hits && Hit(i, Style(b)) in hits ==> a == b)
    && !(Hit(i, Hide) in hits && Hit(i, RemoveAttr("style")) in hits)
  }

  ghost predicate Unmarked(hits: set<Hit>, i: nat, n: Node) {
    n.styleable && exists a :: Hit(i, Style(a)) in hits && n.mark != Some(a)
  }

  /** Still to be hidden, where hiding is a rule; elsewhere, a style attribute still to be removed. */
  ghost predicate Loose(css: Css, hits: set<Hit>, i: nat, n: Node) {
    if n.styleable && Hit(i, Hide) in hits then !css.hidden(StyleText(n)) else n.style.Some?
  }

  ghost function Measure(css: Css, hits: set<Hit>, i: nat, n: Node): nat {
    (if n.linked then 1 else 0) + (if Unmarked(hits, i, n) then 2 else 0) + |n.attrs| + |n.classes|
    + if Loose(css, hits, i, n) then 1 else 0
  }

  ghost function Total(css: Css, hits: set<Hit>, page: seq<Node>): nat {
    if page == [] then 0
    else Total(css, hits, page[..|page| - 1]) + Measure(css, hits, |page| - 1, page[|page| - 1])
  }

  lemma SmallerSet(s: set<string>, x: string)
    ensures |s - {x}| == if x in s then |s| - 1 else |s|
  {
    if x !in s { assert s - {x} == s; }
  }

  /** An action edits exactly when it brings the measure down; otherwise the measure stays. */
  lemma ActMeasure(css: Css, hits: set<Hit>, i: nat, n: Node, a: Action)
    requires Lawful(css) && Hit(i, a) in hits && (n.styleable ==> Peaceful(hits, i))
    ensures var (n', edited) := Act(css, n, a);
      Measure(css, hits, i, n') + (if edited then 1 else 0) <= Measure(css, hits, i, n)
  {
    match a
    case Hide =>
    case Remove =>
    case Style(arg) => StyleMeasure(css, hits, i, n, arg);
    case RemoveAttr(name) => AttrMeasure(css, hits, i, n, name);
    case RemoveClass(name) => SmallerSet(n.classes, name);
  }

  lemma AttrMeasure(css: Css, hits: set<Hit>, i: nat, n: Node, name: string)
    requires Hit(i, RemoveAttr(name)) in hits && (n.styleable ==> Peaceful(hits, i))
    ensures var (n', edited) := Act(css, n, RemoveAttr(name));
      Measure(css, hits, i, n') + (if edited then 1 else 0) <= Measure(css, hits, i, n)
  {
    var n' := Act(css, n, RemoveAttr(name)).0;
    assert Unmarked(hits, i, n') <==> Unmarked(hits, i, n);
    if name != "style" {
      SmallerSet(n.attrs, name);
      assert Loose(css, hits, i, n') <==> Loose(css, hits, i, n);
    } else {
      assert Loose(css, hits, i, n') ==> n.styleable && Hit(i, Hide) in hits;
    }
  }

  lemma StyleMeasure(css: Css, hits: set<Hit>, i: nat, n: Node, arg: string)
    requires Hit(i, Style(arg)) in hits && (n.styleable ==> Peaceful(hits, i))
    ensures var (n', edited) := Act(css, n, Style(arg));
      Measure(css, hits, i, n') + (if edited then 1 else 0) <= Measure(css, hits, i, n)
  {
    var n' := Act(css, n, Style(arg)).0;
    assert !Unmarked(hits, i, n');
  }

  lemma {:induction false} TotalUpdate(css: Css, hits: set<Hit>, page: seq<Node>, i: nat, n: Node)
    requires i < |page|
    ensures Total(css, hits, page[i := n]) + Measure(css, hits, i, page[i]) == Total(css, hits, page) + Measure(css, hits, i, n)
  {
    var last := |page| - 1;
    if i < last {
      TotalUpdate(css, hits, page[..last], i, n);
      assert page[i := n][..last] == page[..last][i := n];
    } else {
      assert page[i := n][..last] == page[..last];
    }
  }

  lemma StepMeasure(css: Css, hits: set<Hit>, page: seq<Node>, h: Hit)
    requires Lawful(css) && Compatible(page, hits) && h in hits
    ensures Total(css, hits, ActAt(css, page, h)) + EditsAt(css, page, h) <= Total(css, hits, page)
    ensures Compatible(ActAt(css, page, h), hits)
  {
    if h.node < |page| {
      ActMeasure(css, hits, h.node, page[h.node], h.action);
      TotalUpdate(css, hits, page, h.node, Act(css, page[h.node], h.action).0);
    }
  }

  ghost predicate Drawn(run: seq<Hit>, hits: set<Hit>) {
    forall k :: 0 <= k < |run| ==> run[k] in hits
  }

  /** So any run, whatever the selectors return, makes no more edits than the measure at its start. */
  lemma {:induction false} EditsBounded(css: Css, hits: set<Hit>, page: seq<Node>, run: seq<Hit>)
    requires Lawful(css) && Compatible(page, hits) && Drawn(run, hits)
    ensures Edits(css, page, run) + Total(css, hits, After(css, page, run)) <= Total(css, hits, page)
    ensures Compatible(After(css, page, run), hits)
  {
    if run != [] {
      var before := run[..|run| - 1];
      EditsBounded(css, hits, page, before);
      StepMeasure(css, hits, After(css, page, before), run[|run| - 1]);
    }
  }

  // ----- and otherwise there is no bound

  function Rounds(a: Hit, b: Hit, m: nat): seq<Hit> {
    if m == 0 then [] else Rounds(a, b, m - 1) + [a] + [b]
  }

  lemma Snoc(css: Css, page: seq<Node>, run: seq<Hit>, h: Hit)
    ensures After(css, page, run + [h]) == ActAt(css, After(css, page, run), h)
    ensures Edits(css, page, run + [h]) == Edits(css, page, run) + EditsAt(css, After(css, page, run), h)
  {
    assert (run + [h])[..|run|] == run;
  }

  lemma {:induction false} KeepsShape(css: Css, page: seq<Node>, run: seq<Hit>, i: nat)
    requires i < |page|
    ensures |After(css, page, run)| == |page| && After(css, page, run)[i].styleable == page[i].styleable
  {
    if run != [] {
      KeepsShape(css, page, run[..|run| - 1], i);
    }
  }

  /** The two actions undo each other: right after the first, the second always edits. */
  ghost predicate Fight(a: Action, b: Action) {
    (a.Style? && b.Style? && a != b) || (a.Hide? && b == RemoveAttr("style"))
  }

  lemma FightEdits(css: Css, n: Node, a: Action, b: Action)
    requires Lawful(css) && n.styleable && Fight(a, b)
    ensures Act(css, Act(css, n, a).0, b).1
  {
  }

  lemma {:induction false} RoundsEdit(css: Css, page: seq<Node>, i: nat, a: Action, b: Action, m: nat)
    requires Lawful(css) && i < |page| && page[i].styleable && Fight(a, b)
    ensures Edits(css, page, Rounds(Hit(i, a), Hit(i, b), m)) >= m
  {
    if m > 0 {
      var run := Rounds(Hit(i, a), Hit(i, b), m - 1);
      RoundsEdit(css, page, i, a, b, m - 1);
      KeepsShape(css, page, run, i);
      Snoc(css, page, run, Hit(i, a));
      Snoc(css, page, run + [Hit(i, a)], Hit(i, b));
      FightEdits(css, After(css, page, run)[i], a, b);
    }
  }

  lemma {:induction false} RoundsDrawn(hits: set<Hit>, a: Hit, b: Hit, m: nat)
    requires a in hits && b in hits
    ensures Drawn(Rounds(a, b, m), hits)
  {
    if m > 0 { RoundsDrawn(hits, a, b, m - 1); }
  }

  ghost predicate NeverMoreThan(css: Css, page: seq<Node>, hits: set<Hit>, bound: nat) {
    forall run :: Drawn(run, hits) ==> Edits(css, page, run) <= bound
  }

  lemma FindFight(page: seq<Node>, hits: set<Hit>) returns (i: nat, a: Action, b: Action)
    requires !Compatible(page, hits)
    ensures i < |page| && page[i].styleable && Fight(a, b) && Hit(i, a) in hits && Hit(i, b) in hits
  {
    i :| 0 <= i < |page| && page[i].styleable && !Peaceful(hits, i);
    if Hit(i, Hide) in hits && Hit(i, RemoveAttr("style")) in hits {
      a, b := Hide, RemoveAttr("style");
    } else {
      var x, y :| Hit(i, Style(x)) in hits && Hit(i, Style(y)) in hits && x != y;
      a, b := Style(x), Style(y);
    }
  }

  /**
   Whatever the selectors return out of these hits, the evaluator makes a bounded number of
   edits and so stops waking itself, if and only if no styleable element is hit by two
   different style rules or both hidden and stripped of its style attribute.
   */
  lemma BoundedIffCompatible(css: Css, page: seq<Node>, hits: set<Hit>)
    requires Lawful(css)
    ensures (exists bound :: NeverMoreThan(css, page, hits, bound)) <==> Compatible(page, hits)
  {
    if Compatible(page, hits) {
      forall run | Drawn(run, hits) ensures Edits(css, page, run) <= Total(css, hits, page) {
        EditsBounded(css, hits, page, run);
      }
      assert NeverMoreThan(css, page, hits, Total(css, hits, page));
    } else {
      var i, a, b := FindFight(page, hits);
      forall bound: nat ensures !NeverMoreThan(css, page, hits, bound) {
        RoundsEdit(css, page, i, a, b, bound + 1);
        RoundsDrawn(hits, Hit(i, a), Hit(i, b), bound + 1);
      }
    }
  }
}

/** The evaluator's passes: each filter acts on whatever its selector returns at that moment. */
module ProceduralPasses {
  import opened Options
  import opened ProceduralSpec

  function FilterHits(nodes: seq<nat>, a: Action): (r: seq<Hit>)
    ensures |r| == |nodes| && forall k :: 0 <= k < |r| ==> r[k] == Hit(nodes[k], a)
  {
    seq(|nodes|, k requires 0 <= k < |nodes| => Hit(nodes[k], a))
  }

  type Select = (nat, seq<Node>, nat) -> seq<nat>

  /** The hits of one pass from filter `f` on; each filter selects on the page the earlier ones left. */
  function PassHits(css: Css, filters: seq<Action>, select: Select, pass: nat, page: seq<Node>, f: nat): seq<Hit>
    decreases |filters| - f
  {
    if f >= |filters| then []
    else
      var part := FilterHits(select(pass, page, f), filters[f]);
      part + PassHits(css, filters, select, pass, After(css, page, part), f + 1)
  }

  /** The hits of the first `n` passes. */
  function PassesHits(css: Css, filters: seq<Action>, select: Select, page: seq<Node>, n: nat): seq<Hit> {
    if n == 0 then []
    else
      var before := PassesHits(css, filters, select, page, n - 1);
      before + PassHits(css, filters, select, n - 1, After(css, page, before), 0)
  }

  lemma {:induction false} AfterConcat(css: Css, page: seq<Node>, a: seq<Hit>, b: seq<Hit>)
    ensures After(css, page, a + b) == After(css, After(css, page, a), b)
    ensures Edits(css, page, a + b) == Edits(css, page, a) + Edits(css, After(css, page, a), b)
  {
    if b == [] {
      assert a + b == a;
    } else {
      var before, h := b[..|b| - 1], b[|b| - 1];
      assert a + b == (a + before) + [h] && b == before + [h];
      AfterConcat(css, page, a, before);
      Snoc(css, page, a + before, h);
      Snoc(css, After(css, page, a), before, h);
    }
  }

  lemma Regroup(a: seq<Hit>, b: seq<Hit>, c: seq<Hit>)
    ensures a + (b + c) == (a + b) + c
  {
  }

  /** One filter further: its hits come next, and the rest is what the other filters do after it. */
  lemma NextFilter(css: Css, filters: seq<Action>, select: Select, pass: nat, page: seq<Node>, f: nat, run: seq<Hit>, all: seq<Hit>)
    requires f < |filters| && all == run + PassHits(css, filters, select, pass, page, f)
    ensures var part := FilterHits(select(pass, page, f), filters[f]);
      all == (run + part) + PassHits(css, filters, select, pass, After(css, page, part), f + 1)
  {
    var part := FilterHits(select(pass, page, f), filters[f]);
    Regroup(run, part, PassHits(css, filters, select, pass, After(css, page, part), f + 1));
  }

  /** One pass further. */
  lemma NextPass(css: Css, filters: seq<Action>, select: Select, page: seq<Node>, n: nat, now: seq<Node>)
    requires now == After(css, page, PassesHits(css, filters, select, page, n))
    ensures var part, all := PassHits(css, filters, select, n, now, 0), PassesHits(css, filters, select, page, n + 1);
      && After(css, page, all) == After(css, now, part)
      && Edits(css, page, all) == Edits(css, page, PassesHits(css, filters, select, page, n)) + Edits(css, now, part)
  {
    AfterConcat(css, page, PassesHits(css, filters, select, page, n), PassHits(css, filters, select, n, now, 0));
  }

  /** What the selectors may return: anything out of these hits, at any pass, on any page. */
  ghost predicate Selects(select: Select, filters: seq<Action>, hits: set<Hit>) {
    forall pass, page, f, k :: 0 <= f < |filters| && 0 <= k < |select(pass, page, f)| ==>
      Hit(select(pass, page, f)[k], filters[f]) in hits
  }

  lemma {:induction false} PassDrawn(css: Css, filters: seq<Action>, select: Select, hits: set<Hit>,
                                     pass: nat, page: seq<Node>, f: nat)
    requires Selects(select, filters, hits)
    ensures Drawn(PassHits(css, filters, select, pass, page, f), hits)
    decreases |filters| - f
  {
    if f < |filters| {
      var part := FilterHits(select(pass, page, f), filters[f]);
      PassDrawn(css, filters, select, hits, pass, After(css, page, part), f + 1);
      DrawnConcat(part, PassHits(css, filters, select, pass, After(css, page, part), f + 1), hits);
    }
  }

  lemma DrawnConcat(a: seq<Hit>, b: seq<Hit>, hits: set<Hit>)
    requires Drawn(a, hits) && Drawn(b, hits)
    ensures Drawn(a + b, hits)
  {
  }

  lemma {:induction false} PassesDrawn(css: Css, filters: seq<Action>, select: Select, hits: set<Hit>, page: seq<Node>, n: nat)
    requires Selects(select, filters, hits)
    ensures Drawn(PassesHits(css, filters, select, page, n), hits)
  {
    if n > 0 {
      var before := PassesHits(css, filters, select, page, n - 1);
      PassesDrawn(css, filters, select, hits, page, n - 1);
      PassDrawn(css, filters, select, hits, n - 1, After(css, page, before), 0);
      DrawnConcat(before, PassHits(css, filters, select, n - 1, After(css, page, before), 0), hits);
    }
  }

  // ----- a page on which every pass wakes the next

  /** Two rules select the same element at every pass. */
  function Both(i: nat): Select {
    (pass: nat, page: seq<Node>, f: nat) => [i]
  }

  lemma PassOfBoth(css: Css, a: Action, b: Action, i: nat, pass: nat, page: seq<Node>)
    ensures PassHits(css, [a, b], Both(i), pass, page, 0) == [Hit(i, a)] + [Hit(i, b)]
  {
    var page' := After(css, page, [Hit(i, a)]);
    assert FilterHits([i], a) == [Hit(i, a)] && FilterHits([i], b) == [Hit(i, b)];
    assert PassHits(css, [a, b], Both(i), pass, page', 1) == [Hit(i, b)] + [];
  }

  lemma FightInAPass(css: Css, a: Action, b: Action, i: nat, page: seq<Node>)
    requires Lawful(css) && Fight(a, b) && i < |page| && page[i].styleable
    ensures Edits(css, page, [Hit(i, a)] + [Hit(i, b)]) >= 1
  {
    var one := [Hit(i, a)];
    assert After(css, page, []) == page && [] + one == one;
    Snoc(css, page, [], Hit(i, a));
    Snoc(css, page, one, Hit(i, b));
    FightEdits(css, page[i], a, b);
  }

  lemma PassOfBothEdits(css: Css, a: Action, b: Action, i: nat, pass: nat, page: seq<Node>)
    requires Lawful(css) && Fight(a, b) && i < |page| && page[i].styleable
    ensures Edits(css, page, PassHits(css, [a, b], Both(i), pass, page, 0)) >= 1
  {
    PassOfBoth(css, a, b, i, pass, page);
    FightInAPass(css, a, b, i, page);
  }

  lemma OneMorePass(css: Css, a: Action, b: Action, i: nat, page: seq<Node>, n: nat, before: seq<Hit>)
    requires Lawful(css) && Fight(a, b) && i < |page| && page[i].styleable
    requires before == PassesHits(css, [a, b], Both(i), page, n)
    ensures Edits(css, page, PassesHits(css, [a, b], Both(i), page, n + 1)) >= Edits(css, page, before) + 1
  {
    var now := After(css, page, before);
    NextPass(css, [a, b], Both(i), page, n, now);
    KeepsShape(css, page, before, i);
    PassOfBothEdits(css, a, b, i, n, now);
  }

  /** Every pass edits the page, so the observer wakes after every pass, for ever. */
  lemma {:induction false} EveryPassEdits(css: Css, a: Action, b: Action, i: nat, page: seq<Node>, n: nat)
    requires Lawful(css) && Fight(a, b) && i < |page| && page[i].styleable
    ensures Edits(css, page, PassesHits(css, [a, b], Both(i), page, n)) >= n
  {
    if n > 0 {
      EveryPassEdits(css, a, b, i, page, n - 1);
      OneMorePass(css, a, b, i, page, n - 1, PassesHits(css, [a, b], Both(i), page, n - 1));
    }
  }

  ghost predicate AtMost(css: Css, filters: seq<Action>, select: Select, page: seq<Node>, bound: nat) {
    forall n: nat :: Edits(css, page, PassesHits(css, filters, select, page, n)) <= bound
  }

  /** However these filters select out of the hits, their passes stop editing the page. */
  ghost predicate ComesToRest(css: Css, filters: seq<Action>, page: seq<Node>, hits: set<Hit>) {
    forall select: Select :: Selects(select, filters, hits) ==> exists bound :: AtMost(css, filters, select, page, bound)
  }

  lemma NotAtRest(css: Css, page: seq<Node>, hits: set<Hit>) returns (a: Action, b: Action)
    requires Lawful(css) && !Compatible(page, hits)
    ensures !ComesToRest(css, [a, b], page, hits)
  {
    var i;
    i, a, b := FindFight(page, hits);
    assert Selects(Both(i), [a, b], hits);
    forall bound: nat ensures !AtMost(css, [a, b], Both(i), page, bound) {
      EveryPassEdits(css, a, b, i, page, bound + 1);
    }
  }

  /**
   The evaluator itself: every set of filters comes to rest, however it selects out of
   these hits, if and only if no styleable element is hit by two different style rules or
   both hidden and stripped of its style attribute.
   */
  lemma ComesToRestIff(css: Css, page: seq<Node>, hits: set<Hit>)
    requires Lawful(css)
    ensures (forall filters :: ComesToRest(css, filters, page, hits)) <==> Compatible(page, hits)
  {
    if Compatible(page, hits) {
      forall filters, select: Select | Selects(select, filters, hits) ensures AtMost(css, filters, select, page, Total(css, hits, page)) {
        forall n: nat ensures Edits(css, page, PassesHits(css, filters, select, page, n)) <= Total(css, hits, page) {
          PassesDrawn(css, filters, select, hits, page, n);
          EditsBounded(css, hits, page, PassesHits(css, filters, select, page, n));
        }
      }
    } else {
      var a, b := NotAtRest(css, page, hits);
    }
  }
}

module Procedural {
  import opened Options
  import opened ProceduralSpec
  import opened ProceduralPasses

  /** After some passes from `start`: the page and the edits are theirs, and the measure has paid for the edits. */
  ghost predicate Settling(css: Css, filters: seq<Action>, select: Select, hits: set<Hit>, start: seq<Node>,
                           page: seq<Node>, passes: nat, edits: nat)
  {
    var run := PassesHits(css, filters, select, start, passes);
    && page == After(css, start, run) && edits == Edits(css, start, run)
    && Compatible(page, hits) && edits + Total(css, hits, page) <= Total(css, hits, start)
  }

  lemma PassSettles(css: Css, filters: seq<Action>, select: Select, hits: set<Hit>, start: seq<Node>,
                    page: seq<Node>, passes: nat, edits: nat)
    requires Lawful(css) && Selects(select, filters, hits) && Settling(css, filters, select, hits, start, page, passes, edits)
    ensures var run := PassHits(css, filters, select, passes, page, 0);
      && Settling(css, filters, select, hits, start, After(css, page, run), passes + 1, edits + Edits(css, page, run))
      && Total(css, hits, After(css, page, run)) + Edits(css, page, run) <= Total(css, hits, page)
  {
    NextPass(css, filters, select, start, passes, page);
    PassDrawn(css, filters, select, hits, passes, page, 0);
    EditsBounded(css, hits, page, PassHits(css, filters, select, passes, page, 0));
  }

  class Evaluator {
    const css: Css
    const filters: seq<Action>
    var page: seq<Node>
    var pending: bool

    constructor (css: Css, filters: seq<Action>, page: seq<Node>)
      ensures this.css == css && this.filters == filters && this.page == page && !pending
    {
      this.css, this.filters, this.page, pending := css, filters, page, false;
    }

    /** One filter's action on every element it selected. */
    method ActAll(nodes: seq<nat>, a: Action) returns (edits: nat)
      modifies this`page
      ensures page == After(css, old(page), FilterHits(nodes, a)) && edits == Edits(css, old(page), FilterHits(nodes, a))
    {
      edits := 0;
      ghost var run := FilterHits(nodes, a);
      for j := 0 to |nodes|
        invariant page == After(css, old(page), run[..j]) && edits == Edits(css, old(page), run[..j])
      {
        assert run[..j + 1] == run[..j] + [run[j]];
        Snoc(css, old(page), run[..j], run[j]);
        if nodes[j] < |page| {
          var (n, edited) := Act(css, page[nodes[j]], a);
          page := page[nodes[j] := n];
          edits := edits + if edited then 1 else 0;
        }
      }
      assert run[..|nodes|] == run;
    }

    /** One pass over all filters. */
    method Run(pass: nat, select: Select) returns (edits: nat)
      modifies this
      ensures !pending
      ensures var run := PassHits(css, filters, select, pass, old(page), 0);
        page == After(css, old(page), run) && edits == Edits(css, old(page), run)
    {
      pending, edits := false, 0;
      ghost var all, run := PassHits(css, filters, select, pass, old(page), 0), [];
      for i := 0 to |filters|
        invariant !pending && page == After(css, old(page), run) && edits == Edits(css, old(page), run)
        invariant all == run + PassHits(css, filters, select, pass, page, i)
      {
        var nodes := select(pass, page, i);
        ghost var part := FilterHits(nodes, filters[i]);
        AfterConcat(css, old(page), run, part);
        NextFilter(css, filters, select, pass, page, i, run, all);
        var more := ActAll(nodes, filters[i]);
        edits, run := edits + more, run + part;
      }
      assert all == run;
    }

    /** The observer's callback. */
    method Schedule()
      modifies this`pending
      ensures pending
    {
      if !pending { pending := true; }
    }

    /** A pass, and the observer's callback if it wakes on an edit the pass made. */
    method PassAndWake(select: Select, wakes: bool, ghost hits: set<Hit>, ghost start: seq<Node>, passes: nat, edits: nat)
      returns (more: nat)
      requires Lawful(css) && Selects(select, filters, hits) && Settling(css, filters, select, hits, start, page, passes, edits)
      modifies this
      ensures Settling(css, filters, select, hits, start, page, passes + 1, edits + more)
      ensures Total(css, hits, page) + more <= Total(css, hits, old(page)) && (pending <==> more > 0 && wakes)
    {
      PassSettles(css, filters, select, hits, start, page, passes, edits);
      more := Run(passes, select);
      if more > 0 && wakes { Schedule(); }
    }

    /**
     The first pass, and then a pass for every time the observer woke on an edit of the
     pass before. With compatible rules and a page that makes no edits of its own this
     comes to an end, after no more edits than the measure of the page at the start.
     */
    method Settle(select: Select, wakes: nat -> bool, ghost hits: set<Hit>) returns (passes: nat, edits: nat)
      requires Lawful(css) && Compatible(page, hits) && Selects(select, filters, hits)
      modifies this
      ensures !pending && passes <= Total(css, hits, old(page)) + 1
      ensures Settling(css, filters, select, hits, old(page), page, passes, edits)
    {
      edits := PassAndWake(select, wakes(0), hits, page, 0, 0);
      passes := 1;
      while pending
        invariant Settling(css, filters, select, hits, old(page), page, passes, edits)
        invariant passes <= edits + if pending then 0 else 1
        decreases Total(css, hits, page), pending
      {
        var more := PassAndWake(select, wakes(passes), hits, old(page), passes, edits);
        edits, passes := edits + more, passes + 1;
      }
    }
  }
}

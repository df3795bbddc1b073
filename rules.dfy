/**
 * Rules: bundles of hooks keyed by a CSS selector (build/bindery.js:146-156,
 * 563-606). The hooks themselves are abstract: `BreakBefore` and `PageNumber`
 * are the two built-in bundles whose behaviour is modelled, and any other
 * bundle is a `Custom` one that is only recorded when it runs.
 */
module Rules {
  import opened Common

  /** The four moments at which the engine calls a rule. */
  datatype Phase = BeforeAdd | AfterAdd | NewPage | AfterBind

  datatype Behaviour =
    | BreakBefore                                 // lines 2019-2024: `beforeAdd` only
    | PageNumber                                  // lines 2267-2279: `newPage` (empty) and `afterBind`
    | Custom(name: string, phases: set<Phase>)    // any other bundle, with the hooks it defines

  /** Whether the bundle defines a hook for `phase` (`rule.beforeAdd` is truthy, ...). */
  predicate Defines(b: Behaviour, phase: Phase)
  {
    match b
    case BreakBefore => phase == BeforeAdd
    case PageNumber => phase == NewPage || phase == AfterBind
    case Custom(_, phases) => phase in phases
  }

  datatype Rule = Rule(selector: string, behaviour: Behaviour)

  /** The positions, in registration order, of the rules that run in `phase`
      for an element the selector test `matches` accepts (lines 563-592); the
      selector is not consulted for `NewPage` and `AfterBind` (593-606). */
  function Selected(rules: seq<Rule>, phase: Phase, matches: string -> bool): (r: seq<nat>)
    ensures forall j | 0 <= j < |r| :: r[j] < |rules|
    ensures forall j, k | 0 <= j < k < |r| :: r[j] < r[k]
    ensures forall i | 0 <= i < |rules| ::
      (i in r <==> Defines(rules[i].behaviour, phase)
                   && (phase in {BeforeAdd, AfterAdd} ==> matches(rules[i].selector)))
  {
    if rules == [] then []
    else
      var rest := Selected(rules[..|rules| - 1], phase, matches);
      var k := |rules| - 1;
      if Defines(rules[k].behaviour, phase) && (phase in {BeforeAdd, AfterAdd} ==> matches(rules[k].selector))
      then rest + [k] else rest
  }

  // ----- Binder.addRules (lines 146-156) -----

  /** One `selector: rule` pair of the object handed to `addRules`, in the
      order `for (selector in rules)` visits them; `None` is a falsy value. */
  datatype Entry = Entry(selector: string, rule: Option<Behaviour>)

  /** The rules `addRules` registers: each truthy entry, tagged with its own selector. */
  function Registered(entries: seq<Entry>): seq<Rule>
  {
    if entries == [] then []
    else
      var e := entries[|entries| - 1];
      Registered(entries[..|entries| - 1]) + (if e.rule.Some? then [Rule(e.selector, e.rule.value)] else [])
  }

  /** The selectors `addRules` warns about ("Unknown rule"). */
  function Unknown(entries: seq<Entry>): seq<string>
  {
    if entries == [] then []
    else
      var e := entries[|entries| - 1];
      Unknown(entries[..|entries| - 1]) + (if e.rule.None? then [e.selector] else [])
  }

  /** Every entry is either registered or warned about, never both. */
  lemma {:induction false} EveryEntryAccounted(entries: seq<Entry>)
    ensures |Registered(entries)| + |Unknown(entries)| == |entries|
  {
    if entries != [] {
      EveryEntryAccounted(entries[..|entries| - 1]);
    }
  }

  /** A registered rule carries exactly the selector it was registered under. */
  lemma {:induction false} RegisteredUnderOwnKey(entries: seq<Entry>)
    ensures forall j | 0 <= j < |Registered(entries)| ::
      Entry(Registered(entries)[j].selector, Some(Registered(entries)[j].behaviour)) in entries
    ensures forall i | 0 <= i < |entries| && entries[i].rule.Some? ::
      Rule(entries[i].selector, entries[i].rule.value) in Registered(entries)
  {
    if entries != [] {
      var init := entries[..|entries| - 1];
      RegisteredUnderOwnKey(init);
      assert forall i | 0 <= i < |init| :: init[i] == entries[i];
    }
  }

  class Binder {
    var rules: seq<Rule>
    var warnings: seq<string>

    constructor ()
      ensures rules == [] && warnings == []
    {
      rules, warnings := [], [];
    }

    /** `addRules(rules)`: truthy entries are appended in order under their own
        selector, falsy ones are reported and skipped. */
    method AddRules(entries: seq<Entry>)
      modifies this
      ensures rules == old(rules) + Registered(entries)
      ensures warnings == old(warnings) + Unknown(entries)
    {
      for k := 0 to |entries|
        invariant rules == old(rules) + Registered(entries[..k])
        invariant warnings == old(warnings) + Unknown(entries[..k])
      {
        assert entries[..k + 1][..k] == entries[..k];
        var e := entries[k];
        if e.rule.None? {
          warnings := warnings + [e.selector];
          continue;
        }
        rules := rules + [Rule(e.selector, e.rule.value)];
      }
      assert entries[..|entries|] == entries;
    }
  }

  // ----- the shared rule objects of the source -----

  /** In the source a rule is an object and `addRules` writes the selector into
      it (line 153). The same object given under two selectors (the built-in
      `BreakBefore` for "h2" and "h3", say) is registered twice, and both
      registrations then carry the last selector. Here an object is named by
      an identity `o`, and `bundles` gives its hooks. */
  datatype SharedEntry = SharedEntry(selector: string, obj: Option<nat>)

  /** The selector field of object `o` after `addRules` has run over `entries`. */
  function SelectorField(entries: seq<SharedEntry>, o: nat, initial: string): string
  {
    if entries == [] then initial
    else
      var e := entries[|entries| - 1];
      if e.obj == Some(o) then e.selector else SelectorField(entries[..|entries| - 1], o, initial)
  }

  /** The objects `addRules` pushes, in order. */
  function Pushed(entries: seq<SharedEntry>): seq<nat>
  {
    if entries == [] then []
    else
      var e := entries[|entries| - 1];
      Pushed(entries[..|entries| - 1]) + (if e.obj.Some? then [e.obj.value] else [])
  }

  /** The rules as the engine later reads them: each pushed object with its
      selector field as it stands once registration is over. */
  function RegisteredAsWritten(entries: seq<SharedEntry>, bundles: map<nat, Behaviour>): seq<Rule>
    requires forall j | 0 <= j < |entries| && entries[j].obj.Some? :: entries[j].obj.value in bundles
  {
    var objs := Pushed(entries);
    PushedKnown(entries, bundles);
    seq(|objs|, j requires 0 <= j < |objs| => Rule(SelectorField(entries, objs[j], ""), bundles[objs[j]]))
  }

  lemma {:induction false} PushedKnown(entries: seq<SharedEntry>, bundles: map<nat, Behaviour>)
    requires forall j | 0 <= j < |entries| && entries[j].obj.Some? :: entries[j].obj.value in bundles
    ensures forall j | 0 <= j < |Pushed(entries)| :: Pushed(entries)[j] in bundles
  {
    if entries != [] {
      PushedKnown(entries[..|entries| - 1], bundles);
    }
  }

  /** The entries with each object replaced by its hooks: what `addRules`
      would register if it copied the rule instead of writing into it. */
  function ByValue(entries: seq<SharedEntry>, bundles: map<nat, Behaviour>): (r: seq<Entry>)
    requires forall j | 0 <= j < |entries| && entries[j].obj.Some? :: entries[j].obj.value in bundles
    ensures |r| == |entries|
  {
    if entries == [] then []
    else
      var e := entries[|entries| - 1];
      ByValue(entries[..|entries| - 1], bundles)
      + [Entry(e.selector, if e.obj.Some? then Some(bundles[e.obj.value]) else None)]
  }

  /** Some entry gives the object `o`. */
  ghost predicate Names(entries: seq<SharedEntry>, o: nat)
  {
    exists i | 0 <= i < |entries| :: entries[i].obj == Some(o)
  }

  lemma {:induction false} PushedNamed(entries: seq<SharedEntry>)
    ensures forall j | 0 <= j < |Pushed(entries)| :: Names(entries, Pushed(entries)[j])
  {
    if entries != [] {
      var init := entries[..|entries| - 1];
      PushedNamed(init);
      forall j | 0 <= j < |Pushed(init)| ensures Names(entries, Pushed(init)[j]) {
        var i :| 0 <= i < |init| && init[i].obj == Some(Pushed(init)[j]);
        assert entries[i] == init[i];
      }
    }
  }

  /** As written, registration agrees with registration by value exactly
      when it gives no object twice: then each object's selector field holds
      the one selector it was given under. */
  lemma {:induction false} DistinctObjectsKeepSelectors(entries: seq<SharedEntry>, bundles: map<nat, Behaviour>)
    requires forall j | 0 <= j < |entries| && entries[j].obj.Some? :: entries[j].obj.value in bundles
    requires forall i, j | 0 <= i < j < |entries| && entries[i].obj.Some? :: entries[j].obj != entries[i].obj
    ensures RegisteredAsWritten(entries, bundles) == Registered(ByValue(entries, bundles))
  {
    if entries != [] {
      var init := entries[..|entries| - 1];
      DistinctObjectsKeepSelectors(init, bundles);
      EarlierFieldsKept(entries, init);
      AsWrittenSnoc(entries, init, bundles);
      var bv := ByValue(entries, bundles);
      assert bv[..|bv| - 1] == ByValue(init, bundles);
    }
  }

  /** When the last entry gives an object no earlier entry gave, the objects
      pushed before it keep their selector fields. */
  lemma EarlierFieldsKept(entries: seq<SharedEntry>, init: seq<SharedEntry>)
    requires entries != [] && init == entries[..|entries| - 1]
    requires forall i | 0 <= i < |entries| - 1 && entries[i].obj.Some? ::
      entries[|entries| - 1].obj != entries[i].obj
    ensures forall j | 0 <= j < |Pushed(init)| ::
      SelectorField(entries, Pushed(init)[j], "") == SelectorField(init, Pushed(init)[j], "")
  {
    PushedNamed(init);
    forall j | 0 <= j < |Pushed(init)|
      ensures SelectorField(entries, Pushed(init)[j], "") == SelectorField(init, Pushed(init)[j], "")
    {
      var i :| 0 <= i < |init| && init[i].obj == Some(Pushed(init)[j]);
      assert entries[i] == init[i];
    }
  }

  /** One more entry adds at most one rule at the end, under the selector
      field as it stands once the earlier objects keep theirs. */
  lemma AsWrittenSnoc(entries: seq<SharedEntry>, init: seq<SharedEntry>, bundles: map<nat, Behaviour>)
    requires entries != [] && init == entries[..|entries| - 1]
    requires forall j | 0 <= j < |entries| && entries[j].obj.Some? :: entries[j].obj.value in bundles
    requires forall j | 0 <= j < |Pushed(init)| ::
      SelectorField(entries, Pushed(init)[j], "") == SelectorField(init, Pushed(init)[j], "")
    ensures var e := entries[|entries| - 1];
      RegisteredAsWritten(entries, bundles)
      == RegisteredAsWritten(init, bundles)
         + (if e.obj.Some? then [Rule(e.selector, bundles[e.obj.value])] else [])
  {
    var e := entries[|entries| - 1];
    PushedKnown(entries, bundles);
    PushedKnown(init, bundles);
    var a := RegisteredAsWritten(entries, bundles);
    var b0 := RegisteredAsWritten(init, bundles);
    var b := b0 + (if e.obj.Some? then [Rule(e.selector, bundles[e.obj.value])] else []);
    var objs0, objs := Pushed(init), Pushed(entries);
    assert |a| == |objs| == |b|;
    forall j | 0 <= j < |a| ensures a[j] == b[j] {
      if j < |objs0| {
        assert objs[j] == objs0[j];
        assert b[j] == b0[j];
      }
    }
  }

  /** Registering the one `BreakBefore` object under "h2" and "h3" leaves no
      rule for "h2": both registrations read "h3". */
  lemma SharedRuleLosesSelector()
    ensures RegisteredAsWritten([SharedEntry("h2", Some(0)), SharedEntry("h3", Some(0))], map[0 := BreakBefore])
         == [Rule("h3", BreakBefore), Rule("h3", BreakBefore)]
  {
    var entries := [SharedEntry("h2", Some(0)), SharedEntry("h3", Some(0))];
    assert entries[..1] == [SharedEntry("h2", Some(0))];
    assert Pushed(entries) == [0, 0];
  }

  /** Registering by value, as `Binder.AddRules` here does, keeps one rule per
      selector: "h2" and "h3" both break. */
  lemma SeparateRulesKeepSelectors()
    ensures Registered([Entry("h2", Some(BreakBefore)), Entry("h3", Some(BreakBefore))])
         == [Rule("h2", BreakBefore), Rule("h3", BreakBefore)]
  {
    var entries := [Entry("h2", Some(BreakBefore)), Entry("h3", Some(BreakBefore))];
    assert entries[..1] == [Entry("h2", Some(BreakBefore))];
  }
}

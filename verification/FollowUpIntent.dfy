/**
 * The compiler from a worker's follow-up shorthand to the explicit durable
 * contract of the child (src/queue/follow-up-intent.ts).
 */
module FollowUpIntent {
  import opened WorkTypes
  import opened Contracts

  datatype Intent = ReadOnlyIntent | NewPrChange | ExistingPrChange

  /** Fields a worker may not supply; a proposal that carries one is refused. */
  datatype StrayField = PriorityField | SourceRefField | CureField | ReviewField | PredecessorsField

  datatype Proposal = Proposal(
    intent: Option<Intent>,
    kind: Option<string>,
    brief: Brief,
    allowed: Option<seq<Action>>,
    delegable: Option<seq<Action>>,
    required: Option<RequiredArtifact>,
    target: Option<ExecutionTarget>,
    stray: set<StrayField>)

  datatype FollowUp = FollowUp(
    kind: string,
    brief: Brief,
    allowed: seq<Action>,
    delegable: seq<Action>,
    required: RequiredArtifact,
    target: ExecutionTarget)

  /** The two fields of the parent the compiler reads. */
  datatype Parent = Parent(delegable: seq<Action>, cure: Option<Cure>)

  datatype Derived = Derived(
    kind: Option<string>,
    allowed: seq<Action>,
    delegable: seq<Action>,
    required: RequiredArtifact,
    target: ExecutionTarget)

  predicate Change(intent: Intent) {
    intent != ReadOnlyIntent
  }

  function Needs(intent: Intent): set<Action> {
    if Change(intent) then {Read, Write, OpenPr} else {Read}
  }

  /** The actions the child gets when the parent can delegate them. */
  function Extras(intent: Intent): set<Action> {
    if Change(intent) then {RunTests, CreateFollowup} else {RunTests, OpenIssue, CreateFollowup}
  }

  function DerivedContract(parent: Parent, intent: Intent): Checked<Derived> {
    if !(Needs(intent) <= ToSet(parent.delegable)) then
      Refused(IntentExceedsCeiling)
    else if intent == ExistingPrChange && parent.cure.None? then
      Refused(IntentWithoutCure)
    else
      var direct := Needs(intent) + (Extras(intent) * ToSet(parent.delegable));
      Accepted(Derived(
        if intent == ExistingPrChange then Some(CURE_CHANGE_KIND) else None,
        Keep(ALL_ACTIONS, direct),
        if CreateFollowup in direct then Keep(ALL_ACTIONS, ToSet(parent.delegable)) else [],
        if Change(intent) then RequiredPullRequest else NoArtifact,
        match intent
        case ReadOnlyIntent => ReadOnly
        case NewPrChange => NewPullRequest
        case ExistingPrChange => ExistingPullRequest))
  }

  /** A supplied list must name the derived actions; it may name them in any order. */
  predicate OptionalActionsAgree(supplied: Option<seq<Action>>, derived: seq<Action>) {
    supplied.Some? ==>
      var normalized := Keep(ALL_ACTIONS, ToSet(supplied.value));
      |normalized| == |supplied.value| && normalized == derived
  }

  function Normalize(parent: Parent, p: Proposal): Checked<FollowUp> {
    if p.intent.None? then
      NormalizeLegacy(p)
    else
      match DerivedContract(parent, p.intent.value)
      case Refused(why) => Refused(why)
      case Accepted(derived) =>
        var kind := if derived.kind.Some? then derived.kind else p.kind;
        if kind.None? then
          Refused(IntentIncomplete)
        else if p.kind.Some? && p.kind != kind then
          Refused(IntentMismatch)
        else if !OptionalActionsAgree(p.allowed, derived.allowed)
             || !OptionalActionsAgree(p.delegable, derived.delegable)
             || (p.required.Some? && p.required.value != derived.required)
             || (p.target.Some? && p.target.value != derived.target) then
          Refused(IntentMismatch)
        else
          Accepted(FollowUp(
            kind.value, p.brief, derived.allowed, derived.delegable, derived.required, derived.target))
  }

  function NormalizeLegacy(p: Proposal): Checked<FollowUp> {
    if p.kind.None? || p.allowed.None? || p.delegable.None? || p.required.None? || p.target.None? then
      Refused(IntentIncomplete)
    else
      Accepted(FollowUp(
        p.kind.value, p.brief, p.allowed.value, p.delegable.value, p.required.value, p.target.value))
  }

  // ----- facts about Keep -----------------------------------------------------

  lemma KeepMembers(order: seq<Action>, wanted: set<Action>)
    ensures forall a :: a in Keep(order, wanted) <==> a in order && a in wanted
  {
  }

  lemma KeepDistinct(order: seq<Action>, wanted: set<Action>)
    requires forall i, j :: 0 <= i < j < |order| ==> order[i] != order[j]
    ensures forall a :: multiset(Keep(order, wanted))[a] == if a in order && a in wanted then 1 else 0
  {
    if order != [] {
      var rest := order[1..];
      KeepDistinct(rest, wanted);
      assert order == [order[0]] + rest;
      assert order[0] !in rest;
    }
  }

  /** The closed list names every action once. */
  lemma KeepAll(wanted: set<Action>)
    ensures forall a :: a in Keep(ALL_ACTIONS, wanted) <==> a in wanted
    ensures forall a :: multiset(Keep(ALL_ACTIONS, wanted))[a] == if a in wanted then 1 else 0
  {
    KeepMembers(ALL_ACTIONS, wanted);
    KeepDistinct(ALL_ACTIONS, wanted);
    forall a: Action ensures a in ALL_ACTIONS {
      match a
      case Read => assert ALL_ACTIONS[0] == a;
      case Write => assert ALL_ACTIONS[1] == a;
      case RunTests => assert ALL_ACTIONS[2] == a;
      case OpenIssue => assert ALL_ACTIONS[3] == a;
      case OpenPr => assert ALL_ACTIONS[4] == a;
      case CreateFollowup => assert ALL_ACTIONS[5] == a;
    }
  }

  // ----- a supplied list is accepted exactly when it is a permutation ---------

  /** A sequence as long as its set of members repeats none of them. */
  lemma {:induction false} SameLengthAsSet(s: seq<Action>)
    ensures |ToSet(s)| <= |s|
    ensures |ToSet(s)| == |s| ==> forall a :: a in s ==> multiset(s)[a] == 1
  {
    if s != [] {
      var rest := s[..|s| - 1];
      var last := s[|s| - 1];
      assert s == rest + [last];
      SameLengthAsSet(rest);
      assert ToSet(s) == ToSet(rest) + {last};
      if last in rest {
        assert ToSet(s) == ToSet(rest);
      }
    }
  }

  lemma KeepLength(wanted: set<Action>)
    ensures |Keep(ALL_ACTIONS, wanted)| == |wanted|
  {
    var kept := Keep(ALL_ACTIONS, wanted);
    KeepAll(wanted);
    assert multiset(kept) == multiset(wanted);
    assert |multiset(kept)| == |multiset(wanted)|;
  }

  lemma SuppliedListAcceptedIffPermutation(supplied: seq<Action>, wanted: set<Action>)
    ensures OptionalActionsAgree(Some(supplied), Keep(ALL_ACTIONS, wanted)) <==>
            multiset(supplied) == multiset(Keep(ALL_ACTIONS, wanted))
  {
    var derived := Keep(ALL_ACTIONS, wanted);
    var normalized := Keep(ALL_ACTIONS, ToSet(supplied));
    KeepAll(wanted);
    KeepAll(ToSet(supplied));
    KeepLength(ToSet(supplied));
    SameLengthAsSet(supplied);
    if OptionalActionsAgree(Some(supplied), derived) {
      assert multiset(supplied) == multiset(normalized);
    }
    if multiset(supplied) == multiset(derived) {
      assert |multiset(supplied)| == |multiset(derived)|;
      forall a ensures a in supplied <==> a in wanted {
        assert a in multiset(supplied) <==> a in multiset(derived);
      }
      assert ToSet(supplied) == wanted;
      KeepLength(wanted);
    }
  }

  // ----- what compilation guarantees ------------------------------------------

  /** The actions an intent is worth under the parent: those it cannot do without, and the parent's among the others. */
  function Granted(parent: Parent, intent: Intent): set<Action> {
    {Read} + (if intent == ReadOnlyIntent then {} else {Write, OpenPr})
      + set a | a in parent.delegable && (a == RunTests || a == CreateFollowup
                                          || (a == OpenIssue && intent == ReadOnlyIntent))
  }

  /** What the child may pass on: all its parent may, or nothing if its parent may not let it propose. */
  function PassedOn(parent: Parent): set<Action> {
    if CreateFollowup in parent.delegable then ToSet(parent.delegable) else {}
  }

  /** The list names each action of the set once, in declaration order. */
  predicate Lists(actions: seq<Action>, wanted: set<Action>) {
    multiset(actions) == multiset(wanted) && actions == Keep(ALL_ACTIONS, ToSet(actions))
  }

  function TargetOf(intent: Intent): ExecutionTarget {
    match intent
    case ReadOnlyIntent => ReadOnly
    case NewPrChange => NewPullRequest
    case ExistingPrChange => ExistingPullRequest
  }

  lemma KeepLists(wanted: set<Action>)
    ensures Lists(Keep(ALL_ACTIONS, wanted), wanted)
  {
    KeepAll(wanted);
    assert ToSet(Keep(ALL_ACTIONS, wanted)) == wanted;
  }

  lemma DerivedGrants(parent: Parent, intent: Intent)
    ensures Needs(intent) + (Extras(intent) * ToSet(parent.delegable)) == Granted(parent, intent)
    ensures Needs(intent) <= ToSet(parent.delegable) <==>
              && Read in parent.delegable
              && (intent != ReadOnlyIntent ==> Write in parent.delegable && OpenPr in parent.delegable)
  {
  }

  lemma DerivedMeans(parent: Parent, intent: Intent)
    ensures var derived := DerivedContract(parent, intent);
            && (derived.Accepted? <==>
                  && Read in parent.delegable
                  && (intent != ReadOnlyIntent ==> Write in parent.delegable && OpenPr in parent.delegable)
                  && (intent == ExistingPrChange ==> parent.cure.Some?))
            && (derived.Accepted? ==>
                  && derived.value.kind == (if intent == ExistingPrChange then Some(CURE_CHANGE_KIND) else None)
                  && derived.value.allowed == Keep(ALL_ACTIONS, Granted(parent, intent))
                  && derived.value.delegable == Keep(ALL_ACTIONS, PassedOn(parent))
                  && derived.value.target == TargetOf(intent)
                  && derived.value.required == (if intent == ReadOnlyIntent then NoArtifact else RequiredPullRequest))
  {
    DerivedGrants(parent, intent);
    KeepNone();
    hide Keep;
  }

  lemma KeepNone()
    ensures Keep(ALL_ACTIONS, {}) == []
  {
    KeepLength({});
  }

  /**
   * A compiled child is granted what its intent needs and what of the extras
   * its parent can delegate, passes on exactly what its parent can if it may
   * propose at all, and has the kind, the target and the artifact of its
   * intent.
   */
  lemma CompiledContractMeans(parent: Parent, p: Proposal)
    requires p.intent.Some? && Normalize(parent, p).Accepted?
    ensures var f, intent := Normalize(parent, p).value, p.intent.value;
            && Lists(f.allowed, Granted(parent, intent))
            && Lists(f.delegable, PassedOn(parent))
            && f.target == TargetOf(intent)
            && f.required == (if intent == ReadOnlyIntent then NoArtifact else RequiredPullRequest)
            && Some(f.kind) == (if intent == ExistingPrChange then Some(CURE_CHANGE_KIND) else p.kind)
            && f.brief == p.brief
  {
    hide DerivedContract, Keep, Granted, PassedOn, Lists, OptionalActionsAgree;
    DerivedMeans(parent, p.intent.value);
    KeepLists(Granted(parent, p.intent.value));
    KeepLists(PassedOn(parent));
  }

  /** Whatever the intent compiles to, the parent could delegate all of it. */
  lemma IntentStaysInsideCeiling(parent: Parent, p: Proposal)
    requires p.intent.Some? && Normalize(parent, p).Accepted?
    ensures var f := Normalize(parent, p).value;
            && Subset(f.allowed, parent.delegable)
            && Subset(f.delegable, parent.delegable)
            && ToSet(f.allowed) == Needs(p.intent.value) + (Extras(p.intent.value) * ToSet(parent.delegable))
            && (f.delegable != [] <==> CreateFollowup in f.allowed)
  {
    KeepAll(Needs(p.intent.value) + (Extras(p.intent.value) * ToSet(parent.delegable)));
    KeepAll(ToSet(parent.delegable));
    var f := Normalize(parent, p).value;
    if CreateFollowup in f.allowed {
      assert CreateFollowup in f.delegable;
    }
  }

  /** The terms a compiled child is judged by: its binding is its parent's cure. */
  function ChildTerms(parent: Parent, f: FollowUp): Terms {
    Terms(f.kind, f.allowed, Some(f.delegable), f.required, Some(f.target),
      f.kind == CURE_CHANGE_KIND && f.target == ExistingPullRequest && parent.cure.Some?,
      true, Some(parent.delegable))
  }

  /**
   * A compiled contract is refused by the contract rule exactly when the worker
   * supplied a discovery kind for a change, or the cure-change kind for
   * something that is not an existing-pull-request change.
   */
  lemma IntentContractProblemIff(parent: Parent, p: Proposal)
    requires p.intent.Some? && Normalize(parent, p).Accepted?
    ensures var f := Normalize(parent, p).value;
            ContractProblem(ChildTerms(parent, f)).Some? <==>
              || (Change(p.intent.value) && DiscoveryKind(f.kind))
              || (p.intent.value != ExistingPrChange && f.kind == CURE_CHANGE_KIND)
  {
    var f := Normalize(parent, p).value;
    IntentShape(parent, p);
    AcceptedIffDeliverable(ChildTerms(parent, f));
  }

  /** What the rules look at in a compiled contract. */
  lemma IntentShape(parent: Parent, p: Proposal)
    requires p.intent.Some? && Normalize(parent, p).Accepted?
    ensures var f, intent := Normalize(parent, p).value, p.intent.value;
            && (Write in f.allowed <==> Change(intent))
            && (OpenPr in f.allowed <==> Change(intent))
            && f.required == (if Change(intent) then RequiredPullRequest else NoArtifact)
            && (f.target == ReadOnly <==> intent == ReadOnlyIntent)
            && (f.target == ExistingPullRequest <==> intent == ExistingPrChange)
            && !CannotPropose(ChildTerms(parent, f))
            && (intent == ExistingPrChange ==>
               parent.cure.Some? && f.kind == CURE_CHANGE_KIND && !DiscoveryKind(f.kind))
  {
    var f, intent := Normalize(parent, p).value, p.intent.value;
    IntentStaysInsideCeiling(parent, p);
    KeepAll(Needs(intent) + (Extras(intent) * ToSet(parent.delegable)));
    assert CURE_CHANGE_KIND[4] == 'u';
  }

  /**
   * The intent form refuses for exactly these reasons: the parent cannot
   * delegate what the intent needs, or has no cure to change; the kind is
   * missing or not the intent's; or something supplied is not what the intent
   * is worth.
   */
  lemma IntentAcceptedIff(parent: Parent, p: Proposal)
    requires p.intent.Some?
    ensures var intent := p.intent.value;
            Normalize(parent, p).Accepted? <==>
            && Read in parent.delegable
            && (intent != ReadOnlyIntent ==> Write in parent.delegable && OpenPr in parent.delegable)
            && (intent == ExistingPrChange ==> parent.cure.Some? && (p.kind.Some? ==> p.kind.value == CURE_CHANGE_KIND))
            && (intent != ExistingPrChange ==> p.kind.Some?)
            && (p.allowed.Some? ==> multiset(p.allowed.value) == multiset(Granted(parent, intent)))
            && (p.delegable.Some? ==> multiset(p.delegable.value) == multiset(PassedOn(parent)))
            && (p.required.Some? ==>
                  p.required.value == if intent == ReadOnlyIntent then NoArtifact else RequiredPullRequest)
            && (p.target.Some? ==> p.target.value == TargetOf(intent))
  {
    hide DerivedContract, Keep, Granted, PassedOn, OptionalActionsAgree;
    var granted, passedOn := Granted(parent, p.intent.value), PassedOn(parent);
    DerivedMeans(parent, p.intent.value);
    AgreesIff(p.allowed, granted);
    AgreesIff(p.delegable, passedOn);
  }

  lemma AgreesIff(supplied: Option<seq<Action>>, wanted: set<Action>)
    ensures OptionalActionsAgree(supplied, Keep(ALL_ACTIONS, wanted)) <==>
            (supplied.Some? ==> multiset(supplied.value) == multiset(wanted))
  {
    if supplied.Some? {
      SuppliedListAcceptedIffPermutation(supplied.value, wanted);
      KeepAll(wanted);
      assert multiset(Keep(ALL_ACTIONS, wanted)) == multiset(wanted);
    }
  }

  /** The compiled contract written out in full, with or without its intent. */
  function Explicit(intent: Option<Intent>, f: FollowUp): Proposal {
    Proposal(intent, Some(f.kind), f.brief, Some(f.allowed), Some(f.delegable), Some(f.required), Some(f.target), {})
  }

  /** Compiling is idempotent, and the legacy long form of a compiled contract means the same child. */
  lemma CompiledContractIsFixed(parent: Parent, p: Proposal)
    requires p.intent.Some? && Normalize(parent, p).Accepted?
    ensures Normalize(parent, Explicit(p.intent, Normalize(parent, p).value)) == Normalize(parent, p)
    ensures Normalize(parent, Explicit(None, Normalize(parent, p).value)) == Normalize(parent, p)
  {
    CompiledContractMeans(parent, p);
    IntentAcceptedIff(parent, p);
    IntentAcceptedIff(parent, Explicit(p.intent, Normalize(parent, p).value));
  }
}

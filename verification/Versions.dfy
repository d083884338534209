/** Version isolation: changes made for versions above `v` are not seen by a
    lookup in a version up to `v`. */
module Versions {
  import opened Basics
  import opened Flows
  import opened Subtables
  import opened ClassifierLookup
  import opened BestMatch
  import opened FlowClassifier

  /** A rule without the end of its window. */
  function Core(p: (BitSet, ClsMatch)): (BitSet, ClsMatch)
  {
    (p.0, p.1.(removeVersion := 0))
  }

  ghost function VisibleAt(view: View, u: nat): set<(BitSet, ClsMatch)>
  {
    set p | p in view && p.1.Visible(u) :: Core(p)
  }

  datatype Change = Insert(mask: BitSet, x: ClsMatch) | Hide(rule: RuleId, version: nat) | Restore(rule: RuleId)

  datatype State = State(view: View, rules: Rules)

  /** One change for versions above `v`: a non-replacing insertion, or a change to
      the window of a rule that was not yet hidden from versions up to `v`. */
  ghost predicate Step(v: nat, s: State, change: Change, s': State)
  {
    match change
    case Insert(m, x) => x.addVersion > v && Inserted(s.view, s.rules, m, x, None, s'.view, s'.rules)
    case Hide(id, version) =>
      version > v && Rewindowed(s.view, s.rules, id, version, s'.view) && s'.rules == s.rules
      && Stored(s.view, s.rules, id).removeVersion > v
    case Restore(id) =>
      v < CLS_NOT_REMOVED_VERSION && Rewindowed(s.view, s.rules, id, CLS_NOT_REMOVED_VERSION, s'.view) && s'.rules == s.rules
      && Stored(s.view, s.rules, id).removeVersion > v
  }

  lemma CoreOf(view: View, u: nat, p: (BitSet, ClsMatch))
    requires p in view && p.1.Visible(u)
    ensures Core(p) in VisibleAt(view, u)
  {
  }

  /** Changing one rule's window keeps the rules visible up to `v` exactly when
      that rule's own visibility there stays the same. */
  lemma WindowKeepsVisible(view: View, p: (BitSet, ClsMatch), version: nat, u: nat)
    requires p in view && (forall q :: q in view && Core(q) == Core(p) ==> q == p)
    ensures var p' := (p.0, p.1.(removeVersion := version));
            VisibleAt(view - {p} + {p'}, u) == VisibleAt(view, u) <==> p'.1.Visible(u) == p.1.Visible(u)
  {
    var p' := (p.0, p.1.(removeVersion := version));
    var view' := view - {p} + {p'};
    forall q | q in view && q != p && q.1.Visible(u) ensures Core(q) in VisibleAt(view', u) { CoreOf(view', u, q); }
    forall q | q in view' && q != p' && q.1.Visible(u) ensures Core(q) in VisibleAt(view, u) { CoreOf(view, u, q); }
    assert Core(p') == Core(p);
    if p.1.Visible(u) { CoreOf(view, u, p); }
    if p'.1.Visible(u) { CoreOf(view', u, p'); }
    if p'.1.Visible(u) == p.1.Visible(u) {
      assert VisibleAt(view', u) == VisibleAt(view, u);
    }
  }

  lemma StepKeepsVisible(v: nat, s: State, change: Change, s': State, u: nat)
    requires Step(v, s, change, s') && u <= v
    ensures VisibleAt(s'.view, u) == VisibleAt(s.view, u)
  {
    if change.Insert? {
      forall q | q in s.view && q.1.Visible(u) ensures Core(q) in VisibleAt(s'.view, u) { CoreOf(s'.view, u, q); }
      forall q | q in s'.view && q.1.Visible(u) ensures Core(q) in VisibleAt(s.view, u) { CoreOf(s.view, u, q); }
    } else {
      var id := change.rule;
      var p := (s.rules[id].mask, Stored(s.view, s.rules, id));
      forall q | q in s.view && Core(q) == Core(p) ensures q == p { assert q.1.rule == p.1.rule; }
      WindowKeepsVisible(s.view, p, if change.Hide? then change.version else CLS_NOT_REMOVED_VERSION, u);
    }
  }

  /** A run of changes made for versions above `v`. */
  ghost predicate Run(v: nat, states: seq<State>, changes: seq<Change>)
  {
    && |states| == |changes| + 1
    && forall i :: 0 <= i < |changes| ==> Step(v, states[i], changes[i], states[i + 1])
  }

  lemma {:induction false} RunKeepsVisible(v: nat, states: seq<State>, changes: seq<Change>, u: nat)
    requires Run(v, states, changes) && u <= v
    ensures VisibleAt(states[|changes|].view, u) == VisibleAt(states[0].view, u)
    decreases |changes|
  {
    if changes != [] {
      var n := |changes| - 1;
      assert Run(v, states[..n + 1], changes[..n]) by {
        forall i | 0 <= i < n ensures Step(v, states[..n + 1][i], changes[..n][i], states[..n + 1][i + 1]) {
          assert Step(v, states[i], changes[i], states[i + 1]);
        }
      }
      RunKeepsVisible(v, states[..n + 1], changes[..n], u);
      assert Step(v, states[n], changes[n], states[n + 1]);
      StepKeepsVisible(v, states[n], changes[n], states[n + 1], u);
    }
  }

  lemma SameMatching(view: View, view': View, u: nat, f: BitSet, p: (BitSet, ClsMatch)) returns (p': (BitSet, ClsMatch))
    requires VisibleAt(view, u) == VisibleAt(view', u) && Matching(view, u, f, p)
    ensures Matching(view', u, f, p') && Core(p') == Core(p)
  {
    CoreOf(view, u, p);
    p' :| p' in view' && p'.1.Visible(u) && Core(p') == Core(p);
  }

  /** A lookup in an old version answers at the same priority after the run as
      before it. */
  lemma LookupIsStable(v: nat, states: seq<State>, changes: seq<Change>, u: nat, f: BitSet, r: Option<ClsMatch>, r': Option<ClsMatch>)
    requires Run(v, states, changes) && u <= v
    requires IsBest(states[0].view, u, f, r) && IsBest(states[|changes|].view, u, f, r')
    ensures r.None? <==> r'.None?
    ensures r.Some? ==> r.value.priority == r'.value.priority
  {
    hide Step;
    RunKeepsVisible(v, states, changes, u);
    var a, b := states[0].view, states[|changes|].view;
    if r.Some? {
      var m :| Matching(a, u, f, (m, r.value));
      var p := SameMatching(a, b, u, f, (m, r.value));
    }
    if r'.Some? {
      var m :| Matching(b, u, f, (m, r'.value));
      var p := SameMatching(b, a, u, f, (m, r'.value));
    }
  }

  /** Walking a list of equal rules to the first visible one gives the visible
      rule of highest priority. */
  lemma WalkFindsHighest(mask: BitSet, id: RuleId, chain: seq<ClsMatch>, version: nat)
    requires ChainOk(mask, id, chain)
    ensures FirstVisible(chain, version) == [] <==> forall x :: x in chain ==> !x.Visible(version)
    ensures forall x :: x in chain && x.Visible(version) ==> x.priority <= FirstVisible(chain, version)[0].priority
  {
    hide FirstVisible;
    var r := FirstVisible(chain, version);
    forall x | x in chain && x.Visible(version) ensures x in r && x.priority <= r[0].priority {
      VisibleFromFirst(chain, version, x);
      SuffixDescends(chain, r);
      FirstIsTop(r, x);
    }
    if r != [] { assert r[0] in chain; }
  }

  lemma SuffixDescends(chain: seq<ClsMatch>, r: seq<ClsMatch>)
    requires Descending(chain) && |r| <= |chain| && r == chain[|chain| - |r|..]
    ensures Descending(r)
  {
  }
}

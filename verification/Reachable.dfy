/** The configurations of runs against the list of all configurations. */
module Reachable {
  import opened Charts
  import opened EntrySets
  import opened Transitions
  import opened MicroSteps
  import opened Stepping
  import opened Configurations

  /** In a chart that is in order every compound state has a proper child. */
  lemma ChartInhabited(c: Chart)
    requires ChartOk(c)
    ensures Inhabited(c)
  {
    forall k: nat | IsCompound(c, k) ensures HasProperChild(c, k) {
      assert StateOk(c, k);
      var x := CompletedBy(c, k);
      assert StateOk(c, x);
      if !Proper(c, x) {
        var j := FirstFrom(c, x, 0);
        var t := c.transitions[j].target;
        assert TargetsOk(c, k, t);
        var y :| y in t;
        ProperToward(c, k, y);
      }
    }
  }

  /** A state below a compound state, no initial pseudo-state, leads to a proper child. */
  lemma ProperToward(c: Chart, k: nat, y: nat)
    requires ChartOk(c) && IsCompound(c, k) && Under(c, y, k) && c.states[y].kind != Initial
    ensures HasProperChild(c, k)
  {
    var w := Toward(c, k, y);
    if !Proper(c, w) {
      assert w == y by {
        if w != y { UnderBounds(c, y, w); }
      }
      assert StateOk(c, y) && HistoryOk(c, y);
      var t := c.transitions[FirstFrom(c, y, 0)].target;
      var z :| z in t;
      assert Proper(c, z) && Under(c, z, k);
      var v := Toward(c, k, z);
      if v != z { UnderBounds(c, z, v); }
    }
  }

  /** Whatever happens in a run, the configuration is one of those listed for the
      whole chart. */
  lemma ReachableIsListed(c: Chart, evs: seq<Event>, all: seq<set<nat>>)
    requires ChartOk(c) && AllListed(c, 0, all)
    ensures Run(c, evs).flags != PRISTINE ==> Lists(c, 0, all, Run(c, evs).configuration)
  {
    RunsAreLegal(c, evs);
    LegalAtRoot(c, Run(c, evs).configuration);
  }
}

/** The YES/NO relabelling of everything a tick works out, from the organic books to the desired ladder. */
module ReconcilerSymmetry {
  import opened Planner
  import PlannerProperties
  import SyntheticBook
  import opened Reconciler

  /** The same observation with the two outcomes renamed into each other. */
  function Exchanged(o: Observation): Observation
  {
    o.(position := PlannerProperties.SwapShares(o.position), organicYes := o.organicNo, organicNo := o.organicYes,
       flow := PlannerProperties.SwapFlow(o.flow))
  }

  lemma RelabelRatios(c: Config, p: Position, f: Flow)
    requires c.initialYes <= PAR_PRICE_BPS
    ensures InventoryRatio(PlannerProperties.Relabel(c), PlannerProperties.SwapShares(p)) == InventoryRatio(c, p)
    ensures FlowRatio(PlannerProperties.SwapFlow(f)) == FlowRatio(f)
  {
  }

  lemma RelabelSignals(c: Config, o: Observation)
    requires ValidConfig(c)
    ensures SignalsOf(PlannerProperties.Relabel(c), Exchanged(o)) == SignalsOf(c, o)
  {
    hide SyntheticBook.DepthSnapshot;
    hide SyntheticBook.DepthRatio;
    hide InventoryRatio;
    hide FlowRatio;
    hide ValidConfig;
    InitialFits(c);
    SyntheticBook.RelabelDepth(c, o.window, o.organicYes, o.organicNo);
    RelabelRatios(c, o.position, o.flow);
  }

  lemma RelabelDesired(c: Config, o: Observation)
    requires ValidConfig(c)
    ensures SyntheticBook.Exchanged(Desired(PlannerProperties.Relabel(c), Exchanged(o)), Desired(c, o))
  {
    hide SignalsOf;
    hide ValidConfig;
    hide Ladder;
    hide AdaptiveSpread;
    hide AdaptiveSize;
    hide SyntheticBook.Exchanged;
    RelabelSignals(c, o);
    var s := SignalsOf(c, o);
    SyntheticBook.RelabelExchanges(c, AdaptiveSpread(s), AdaptiveSize(s));
    SyntheticBook.RelabelExchanges(c, 10_000, 10_000);
  }

  /**
   * Renaming the outcomes, by complementing the initial price, negating the stored skew and exchanging the position,
   * the flow and the organic books, negates the measured skew and exchanges the sides of the desired ladder rung by
   * rung; nothing else a tick works out changes.
   */
  lemma RelabelInputs(c: Config, o: Observation)
    requires ValidConfig(c)
    ensures
      var renamed, inputs := InputsOf(PlannerProperties.Relabel(c), Exchanged(o)), InputsOf(c, o);
      && renamed == inputs.(desired := renamed.desired, skew := -inputs.skew)
      && SyntheticBook.Exchanged(renamed.desired, inputs.desired)
  {
    hide SignalsOf;
    hide ValidConfig;
    hide InventorySkew;
    hide Desired;
    hide SyntheticBook.Exchanged;
    InitialFits(c);
    RelabelSignals(c, o);
    RelabelDesired(c, o);
    PlannerProperties.RelabelSkew(c, o.position);
  }

  /**
   * The same for rows whose skew was measured, as a tick leaves them: complementing the initial price and exchanging
   * what is observed is a relabelling of the settled row.
   */
  lemma RelabelSettled(c: Config, o: Observation)
    requires ValidConfig(c)
    ensures
      var other := c.(initialYes := PAR_PRICE_BPS - c.initialYes);
      var renamed := PlannerProperties.WithMeasuredSkew(other, Exchanged(o).position);
      var settled := PlannerProperties.WithMeasuredSkew(c, o.position);
      && renamed == PlannerProperties.Relabel(settled)
      && SyntheticBook.Exchanged(Desired(renamed, Exchanged(o)), Desired(settled, o))
  {
    hide Desired;
    hide SyntheticBook.Exchanged;
    PlannerProperties.RelabelSkew(c, o.position);
    SkewIgnoresStored(c, Exchanged(o).position);
    hide InventorySkew;
    RelabelDesired(PlannerProperties.WithMeasuredSkew(c, o.position), o);
  }

  lemma SkewIgnoresStored(c: Config, p: Position)
    requires c.initialYes <= PAR_PRICE_BPS
    ensures InventorySkew(c.(initialYes := PAR_PRICE_BPS - c.initialYes), p)
         == InventorySkew(PlannerProperties.Relabel(c), p)
  {
  }

  lemma InitialFits(c: Config)
    requires ValidConfig(c)
    ensures c.initialYes <= PAR_PRICE_BPS
  {
  }
}

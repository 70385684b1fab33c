/** Concrete runs of the component registry: a deployment intent recorded twice, two deployments
    of one component in flight, and a proposal decided without its approval. */
module ComponentSample {
  import opened Journal
  import opened Approvals
  import opened Components
  import opened ComponentHistory
  import opened ComponentSafety
  import opened ComponentOverlap

  function Zeros(n: nat): (text: string)
    ensures |text| == n && forall i | 0 <= i < n :: text[i] == '0'
  {
    if n == 0 then "" else Zeros(n - 1) + ['0']
  }

  const D := "sha256:" + Zeros(64)

  const M := ServiceManifest("m", "c", "k", D, "1", [], [])
  const I := Identity("p", "a", "n", "u", "o", D, D, D, "d", D)
  const T := Terms("p", "u", "o", D, D, D, "n", 10)
  const P := Proposal("u", "g", "r", "s", D, D, D, "e", "o", ["c"], 10, "c", D, D, D, "o", "e", PendingApproval)
  const X := DeploymentIntent("x", "v", "p", "d", D, D, "1")

  const E := Env(_ => "z", _ => M, (_, _) => "y", _ => true, _ => true, _ => true, _ => true, _ => true)

  const W0 := Components.Init(E, 0, "o")
  const W1 := W0.(tables := Tables(map["a" := Approval(T, Pending, Undecided)], map["p" := P]))
  const W2 := RecordDeployment(E, W1, I, X, M, "g", true, 0).0
  const W3 := RecordDeployment(E, W2, I, X, M, "g", true, 0).0

  function SampleSteps(): seq<Step> {
    [SubmitStep("a", T, P), RecordDeploymentStep(I, X, M, "g", true, 0), RecordDeploymentStep(I, X, M, "g", true, 0)]
  }

  lemma DigestOk()
    ensures IsSha256(D)
  {
  }

  lemma BindingOk()
    ensures LoadValidatedBinding(W1.tables, I, "g", true) == Ok(Binding(Approval(T, Pending, Undecided), P))
  {
    DigestOk();
    assert "d"[0] in "d" && "u"[0] in "u";
    assert !Blank("d") && !Blank("u");
  }

  lemma IntentIsRecordable()
    ensures Recordable(E, W1, I, X, M, "g", true, 0)
  {
    BindingOk();
  }

  /** A run goes on with any step that is enabled. */
  lemma ExtendRun(steps: seq<Step>, states: seq<State>, step: Step, s': State)
    requires IsRun(E, W0, steps, states) && Enabled(E, states[|steps|], step) && s' == Apply(E, states[|steps|], step)
    ensures IsRun(E, W0, steps + [step], states + [s'])
  {
    var steps', states' := steps + [step], states + [s'];
    forall k | 0 <= k < |steps'| ensures TakesStep(E, steps', states', k) {
      if k < |steps| { assert TakesStep(E, steps, states, k); }
    }
  }

  lemma SubmittedIsRun()
    ensures IsRun(E, W0, [SubmitStep("a", T, P)], [W0, W1])
  {
    assert IsRun(E, W0, [], [W0]);
    ExtendRun([], [W0], SubmitStep("a", T, P), W1);
    assert [] + [SubmitStep("a", T, P)] == [SubmitStep("a", T, P)] && [W0] + [W1] == [W0, W1];
  }

  lemma RecordedIsRun()
    ensures IsRun(E, W0, SampleSteps()[..2], [W0, W1, W2])
  {
    SubmittedIsRun();
    ExtendRun([SubmitStep("a", T, P)], [W0, W1], SampleSteps()[1], W2);
    assert [SubmitStep("a", T, P)] + [SampleSteps()[1]] == SampleSteps()[..2] && [W0, W1] + [W2] == [W0, W1, W2];
  }

  lemma SampleIsRun()
    ensures IsInit(E, W0) && IsRun(E, W0, SampleSteps(), [W0, W1, W2, W3])
  {
    RecordedIsRun();
    ExtendRun(SampleSteps()[..2], [W0, W1, W2], SampleSteps()[2], W3);
    assert SampleSteps()[..2] + [SampleSteps()[2]] == SampleSteps() && [W0, W1, W2] + [W3] == [W0, W1, W2, W3];
  }

  /** Submitting a proposal and recording its deployment twice is a run. Both records succeed, and
      the second one changes the log and nothing else. */
  lemma RepeatedRecordWitness()
    ensures IsInit(E, W0) && IsRun(E, W0, SampleSteps(), [W0, W1, W2, W3])
    ensures Recordable(E, W1, I, X, M, "g", true, 0) && W2 != W1
    ensures W3 == W2.(log := W2.log + [ProposalEvent(CapabilityChangeApproved, P, "p")])
  {
    SampleIsRun();
    IntentIsRecordable();
    BindingOk();
    RecordIsNoOpExactly(E, W1, I, X, M, "g", true, 0);
    RepeatedRecordAppendsApproval(E, W1, I, X, M, "g", true, 0);
  }

  // ------------------------------------------------------- Overlapping deployments

  const I2 := I.(proposalId := "q", approvalId := "b", decisionId := "e")
  const T2 := T.(proposalId := "q")
  const X2 := DeploymentIntent("y", "w", "q", "e", D, D, "1")

  const V2 := W1.(tables := Tables(W1.tables.approvals["b" := Approval(T2, Pending, Undecided)],
                                   W1.tables.proposals["q" := P]))
  const V3 := RecordDeployment(E, V2, I, X, M, "g", true, 0).0
  const V4 := RecordDeployment(E, V3, I2, X2, M, "g", true, 0).0

  function OverlapSteps(): seq<Step> {
    [SubmitStep("a", T, P), SubmitStep("b", T2, P), RecordDeploymentStep(I, X, M, "g", true, 0),
     RecordDeploymentStep(I2, X2, M, "g", true, 0)]
  }

  lemma SubmittedTwiceIsRun()
    ensures IsRun(E, W0, OverlapSteps()[..2], [W0, W1, V2])
  {
    SubmittedIsRun();
    ExtendRun([SubmitStep("a", T, P)], [W0, W1], OverlapSteps()[1], V2);
    assert [SubmitStep("a", T, P)] + [OverlapSteps()[1]] == OverlapSteps()[..2] && [W0, W1] + [V2] == [W0, W1, V2];
  }

  lemma FirstRecordIsRun()
    ensures IsRun(E, W0, OverlapSteps()[..3], [W0, W1, V2, V3])
  {
    SubmittedTwiceIsRun();
    ExtendRun(OverlapSteps()[..2], [W0, W1, V2], OverlapSteps()[2], V3);
    assert OverlapSteps()[..2] + [OverlapSteps()[2]] == OverlapSteps()[..3] && [W0, W1, V2] + [V3] == [W0, W1, V2, V3];
  }

  lemma OverlapIsRun()
    ensures IsRun(E, W0, OverlapSteps(), [W0, W1, V2, V3, V4])
  {
    FirstRecordIsRun();
    ExtendRun(OverlapSteps()[..3], [W0, W1, V2, V3], OverlapSteps()[3], V4);
    assert OverlapSteps()[..3] + [OverlapSteps()[3]] == OverlapSteps();
    assert [W0, W1, V2, V3] + [V4] == [W0, W1, V2, V3, V4];
  }

  lemma OverlapBindings()
    ensures LoadValidatedBinding(V2.tables, I, "g", true) == Ok(Binding(Approval(T, Pending, Undecided), P))
    ensures LoadValidatedBinding(V2.tables, I2, "g", true) == Ok(Binding(Approval(T2, Pending, Undecided), P))
  {
    DigestOk();
    assert "d"[0] in "d" && "e"[0] in "e" && "u"[0] in "u";
    assert !Blank("d") && !Blank("e") && !Blank("u");
  }

  lemma BothAreRecorded()
    ensures V4.deployments == map["x" := DeployRow("c", X), "y" := DeployRow("c", X2)]
    ensures V4.tables == V2.tables && V4.receipts == map[]
  {
    OverlapBindings();
    assert Recordable(E, V2, I, X, M, "g", true, 0);
    assert V3.deployments == map["x" := DeployRow("c", X)] && V3.tables == V2.tables;
    assert Recordable(E, V3, I2, X2, M, "g", true, 0);
  }

  lemma TwoInFlight(s: State)
    requires s.deployments == map["x" := DeployRow("c", X), "y" := DeployRow("c", X2)]
    requires s.tables.approvals == map["a" := Approval(T, Pending, Undecided), "b" := Approval(T2, Pending, Undecided)]
    ensures InFlight(s, "x", "c") && InFlight(s, "y", "c") && !Solo(s)
  {
    assert "a" in s.tables.approvals && "b" in s.tables.approvals;
    assert InFlight(s, "x", "c") && InFlight(s, "y", "c");
    assert "x"[0] != "y"[0];
    assert exists d, e, c :: InFlight(s, d, c) && InFlight(s, e, c) && d != e;
  }

  /** Two proposals for one component are submitted and a deployment of each is recorded: both are
      in flight, and neither has a receipt. */
  lemma OverlapWitness()
    ensures IsInit(E, W0) && IsRun(E, W0, OverlapSteps(), [W0, W1, V2, V3, V4])
    ensures InFlight(V4, "x", "c") && InFlight(V4, "y", "c") && V4.receipts == map[] && !Solo(V4)
  {
    OverlapIsRun();
    BothAreRecorded();
    TwoInFlight(V4);
  }

  // -------------------------------------------------------------- Direct decisions

  const R2 := W1.(tables := W1.tables.(proposals := map["p" := P.(status := ProposalRejected)]))

  /** Rejecting a submitted proposal directly is a step of the runs, and leaves its approval
      pending. */
  lemma DirectRejectionWitness()
    ensures IsRun(E, W0, [SubmitStep("a", T, P), OtherDecisionStep(R2.tables, [], "o")], [W0, W1, R2])
    ensures Lockstep(W1.tables) && !Lockstep(R2.tables)
  {
    SubmittedIsRun();
    var step := OtherDecisionStep(R2.tables, [], "o");
    assert DirectlyDecides(W1.tables, R2.tables, "p");
    ExtendRun([SubmitStep("a", T, P)], [W0, W1], step, R2);
    assert [SubmitStep("a", T, P)] + [step] == [SubmitStep("a", T, P), step] && [W0, W1] + [R2] == [W0, W1, R2];
    assert "a" in R2.tables.approvals;
  }
}

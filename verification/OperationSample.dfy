/** A concrete run of the operation registry in which an interrupted snapshot creation loses every
    operation. */
module OperationSample {
  import opened Journal
  import opened Approvals
  import opened OperationRegistry
  import opened OperationHistory

  const Clock := Spec("t", ReadOnly, "", "", true, Builtin, "t")
  const M := Manifest("m", "h", "a", "p", "e", "n", "", "", "", true, 0)

  /** A digest that tells the two snapshots of the run apart. */
  function Digest(content: Snapshot): string {
    if "n" in content.ops then "full" else "base"
  }

  const E := Env(Digest, (m: Manifest) => m.id, (m: Manifest) => m.id, _ => true, _ => ReadOnly, Clock)

  const Full := Snapshot(map["t" := Clock, "n" := Spec("n", ReadOnly, "", "", true, External, "m")], BuiltinHooks)
  const Header := Snapshot(map[], map[])

  const S0 := OperationRegistry.Init(E, map["t" := Clock])
  const S1 := Apply(E, S0, ManifestStep(M))
  const S2 := Apply(E, S1, InterruptedCreateStep(Full, Header))
  const S3 := Apply(E, S2, EnableStep("m", "base", "d"))

  function SampleSteps(): seq<Step> {
    [ManifestStep(M), InterruptedCreateStep(Full, Header), EnableStep("m", "base", "d")]
  }

  lemma Fragment()
    ensures S2.active == "base" && S2.manifests == map["m" := M]
    ensures S2.snapshots == map["base" := Snapshot(map["t" := Clock], BuiltinHooks), "full" := Header]
  {
    assert "t"[0] != "n"[0] && "base"[0] != "full"[0];
  }

  lemma Enabling()
    ensures S3.active == "full" && S3.snapshots == S2.snapshots
  {
    assert "t"[0] != "n"[0] && "base"[0] != "full"[0];
    Fragment();
  }

  /** A harness is registered, the creation of its snapshot stops after the header, and enabling
      the harness then activates a snapshot under the digest of the full content that holds no
      operation at all. */
  lemma LostOperationsWitness()
    ensures IsRun(E, map["t" := Clock], SampleSteps(), [S0, S1, S2, S3])
    ensures S0.snapshots[S0.active].ops == map["t" := Clock]
    ensures S3.active == E.snapshotId(Full) && S3.active in S3.snapshots && S3.snapshots[S3.active].ops == map[]
  {
    var steps, states := SampleSteps(), [S0, S1, S2, S3];
    Fragment();
    Enabling();
    assert TakesStep(E, steps, states, 0);
    assert TakesStep(E, steps, states, 1);
    assert TakesStep(E, steps, states, 2);
    assert forall k | 0 <= k < |steps| :: TakesStep(E, steps, states, k);
  }
}

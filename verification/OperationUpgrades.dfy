/** Paths of the operation registry that undo, repeat or commute: enabling and disabling a
    harness, restarting, and upgrading two operations in either order. */
module OperationUpgrades {
  import opened Journal
  import opened Approvals
  import opened OperationRegistry
  import opened OperationHistory

  // ------------------------------------------------------- Enable then disable

  /** The digest tells snapshots apart. */
  ghost predicate Injective(env: Env) {
    forall a, b | env.snapshotId(a) == env.snapshotId(b) :: a == b
  }

  /** Enabling a harness whose operation is absent and disabling it again returns to the original
      active snapshot, two versions later. */
  lemma EnableDisableRoundTrip(env: Env, first: string, s: State, manifestId: string, d1: string, d2: string)
    requires Inv(env, first, s) && Addressed(env, s.snapshots) && Injective(env) && manifestId in s.manifests
    requires s.manifests[manifestId].operation !in s.snapshots[s.active].ops
    ensures var (s1, r1) := EnableHarness(env, s, manifestId, s.active, d1);
            var (s2, r2) := DisableHarness(env, s1, manifestId, s1.active, d2);
            && r1.Ok? && r2.Ok? && s1.active != s.active
            && s2.active == s.active && s2.version == s.version + 2
  {
    var m, current := s.manifests[manifestId], s.snapshots[s.active];
    var content := current.(ops := EnableOps(env, current.ops, m.(id := manifestId)));
    CreateAndActivate(env, first, s, content, s.active, d1);
    var s1 := EnableHarness(env, s, manifestId, s.active, d1).0;
    assert s1.snapshots[s1.active] == content;
    assert Without(content.ops, m.operation) == current.ops;
    CreateAndActivate(env, first, s1, content.(ops := current.ops), s1.active, d2);
  }

  /** When an earlier attempt to create the snapshot was cut short, enabling reuses what it left
      and activates that fragment under the digest of the whole: the harness has its operation, and
      every operation that was enabled before is still there, exactly as far as the rows got. The
      table stays content-addressed exactly when nothing was missing. */
  lemma EnableAfterInterruption(env: Env, s: State, manifestId: string, d: string, partial: Snapshot)
    requires Addressed(env, s.snapshots) && Injective(env) && s.active in s.snapshots && manifestId in s.manifests
    requires s.manifests[manifestId].operation !in s.snapshots[s.active].ops
    requires env.snapshotId(EnabledContent(env, s, manifestId)) !in s.snapshots
    requires PartOf(partial, EnabledContent(env, s, manifestId))
    ensures var content := EnabledContent(env, s, manifestId);
            var (s', r) := EnableHarness(env, InterruptedCreate(env, s, content, partial), manifestId, s.active, d);
            && r == Ok(env.snapshotId(content)) && s'.active == r.value && s'.active in s'.snapshots
            && s'.snapshots[s'.active] == partial && s'.version == s.version + 1
            && (Addressed(env, s'.snapshots) <==> partial == content)
  {
    var content := EnabledContent(env, s, manifestId);
    var s' := EnableHarness(env, InterruptedCreate(env, s, content, partial), manifestId, s.active, d).0;
    assert s'.snapshots == s.snapshots[env.snapshotId(content) := partial];
  }

  function EnabledContent(env: Env, s: State, manifestId: string): Snapshot
    requires s.active in s.snapshots && manifestId in s.manifests
  {
    var current := s.snapshots[s.active];
    current.(ops := EnableOps(env, current.ops, s.manifests[manifestId].(id := manifestId)))
  }

  // ------------------------------------------------------------ Restart safety

  lemma StoredUnderOwnId(env: Env, first: string, s: State, content: Snapshot, decisionId: string)
    requires Inv(env, first, s) && Addressed(env, s.snapshots) && Injective(env)
    ensures var s' := BootActivate(env, s, content, decisionId);
            Inv(env, first, s') && Addressed(env, s'.snapshots) && s'.snapshots[s'.active] == content
              && s'.version == s.version + 1
  {
    CreateAndActivate(env, first, s, content, s.active, decisionId);
  }

  lemma FirstBoot(env: Env, first: string, s: State)
    requires Inv(env, first, s) && Addressed(env, s.snapshots) && Injective(env) && env.control.name != LEGACY_TIME
    requires env.control.name != RETIRED_ACCEPT
    ensures var s1 := BootFirst(env, s);
            && Inv(env, first, s1) && Addressed(env, s1.snapshots) && s1.snapshots[s1.active].hooks != map[]
            && !HasLegacyTime(s1.snapshots[s1.active].ops)
            && (HasLegacyTime(s.snapshots[s.active].ops) ==>
                  HasControls(env, s1.snapshots[s1.active].ops) && s1.version == s.version + 1)
  {
    var current := s.snapshots[s.active];
    assert BUDGET_CONTRACT in BuiltinHooks;
    if HasLegacyTime(current.ops) {
      StoredUnderOwnId(env, first, s, Snapshot(WithControls(env, Without(current.ops, LEGACY_TIME)),
                                               InheritedHooks(current.hooks)),
                       "retire_builtin_time:" + s.active);
    } else if current.hooks == map[] {
      StoredUnderOwnId(env, first, s, current.(hooks := BuiltinHooks), "hook_bindings_backfill:" + s.active);
    }
  }

  lemma SecondBoot(env: Env, first: string, s: State)
    requires Inv(env, first, s) && Addressed(env, s.snapshots) && Injective(env) && env.control.name != LEGACY_TIME
    requires env.control.name != RETIRED_ACCEPT
    requires !HasLegacyTime(s.snapshots[s.active].ops)
    ensures var s' := BootSecond(env, s);
            && Inv(env, first, s') && HasControls(env, s'.snapshots[s'.active].ops)
            && !HasLegacyTime(s'.snapshots[s'.active].ops)
            && s'.snapshots[s'.active].hooks == s.snapshots[s.active].hooks
  {
    var current := s.snapshots[s.active];
    if !HasControls(env, current.ops) {
      StoredUnderOwnId(env, first, s, current.(ops := WithControls(env, current.ops)),
                       "seed_coding_controls:" + s.active);
    }
  }

  /** Restarting is idempotent: a second boot right after the first activates nothing. A legacy
      clock is retired together with the control seed in one activation. */
  lemma BootIsIdempotent(env: Env, first: string, s: State)
    requires Inv(env, first, s) && Addressed(env, s.snapshots) && Injective(env)
    requires env.control.name != LEGACY_TIME && env.control.name != RETIRED_ACCEPT
    ensures var s' := Boot(env, s);
            && s'.active in s'.snapshots && Boot(env, s') == s'
            && HasControls(env, s'.snapshots[s'.active].ops) && !HasLegacyTime(s'.snapshots[s'.active].ops)
            && s'.snapshots[s'.active].hooks != map[]
    ensures HasLegacyTime(s.snapshots[s.active].ops) ==> Boot(env, s).version == s.version + 1
  {
    FirstBoot(env, first, s);
    SecondBoot(env, first, BootFirst(env, s));
    SettledBoot(env, Boot(env, s));
  }

  lemma SettledBoot(env: Env, s: State)
    requires s.active in s.snapshots && s.snapshots[s.active].hooks != map[]
    requires HasControls(env, s.snapshots[s.active].ops) && !HasLegacyTime(s.snapshots[s.active].ops)
    ensures Boot(env, s) == s
  {
  }

  // ------------------------------------------------------------ Schema upgrades

  /** The checks of an upgrade, short of the new snapshot being new. */
  predicate UpgradeReady(env: Env, s: State, proposalId: string, m: Manifest, agent: string, now: int) {
    && DecidableProposal(s, proposalId, agent, now).Ok?
    && Upgradable(s, s.tables.proposals[proposalId], m.operation)
    && RegisterReplacement(env, s, m).Ok?
  }

  function NextContent(s: State, m: Manifest): Snapshot
    requires s.active in s.snapshots && m.operation in s.snapshots[s.active].ops
  {
    UpgradeContent(s.snapshots[s.active], s.snapshots[s.active].ops[m.operation], m)
  }

  /** What a committing upgrade leaves behind. */
  predicate Upgraded(env: Env, s: State, proposalId: string, m: Manifest, s': State) {
    && s.active in s.snapshots && m.operation in s.snapshots[s.active].ops
    && s'.active == env.snapshotId(NextContent(s, m)) && s'.active !in s.snapshots
    && s'.snapshots == s.snapshots[s'.active := NextContent(s, m)]
    && s'.manifests == s.manifests[m.id := if m.id in s.manifests then s.manifests[m.id] else m]
    && proposalId in s'.tables.proposals
    && s'.tables.proposals == s.tables.proposals[proposalId := s'.tables.proposals[proposalId]]
  }

  /** An upgrade commits exactly when its checks pass and the new content is not stored yet. */
  lemma UpgradeCommitsExactly(env: Env, s: State, proposalId: string, decisionId: string, m: Manifest, agent: string,
                              now: int)
    ensures var (s', r) := SchemaUpgrade(env, s, proposalId, decisionId, m, agent, now);
            && (r.Ok? <==>
                  UpgradeReady(env, s, proposalId, m, agent, now) && env.snapshotId(NextContent(s, m)) !in s.snapshots)
            && (r.Ok? ==> Upgraded(env, s, proposalId, m, s'))
  {
  }

  lemma SwapUpdates(ops: map<string, Spec>, k1: string, u1: Spec, k2: string, u2: Spec)
    requires k1 != k2
    ensures ops[k1 := u1][k2 := u2] == ops[k2 := u2][k1 := u1]
  {
  }

  /** Both upgrades are in, every other operation is as it was, and the hooks are inherited. */
  lemma BothInstalled(env: Env, s: State, p1: string, m1: Manifest, s1: State, p2: string, m2: Manifest, s2: State)
    requires m1.operation != m2.operation
    requires Upgraded(env, s, p1, m1, s1) && Upgraded(env, s1, p2, m2, s2)
    ensures m2.operation in s.snapshots[s.active].ops
    ensures var ops := s.snapshots[s.active].ops;
            s2.snapshots[s2.active] ==
            Snapshot(ops[m1.operation := UpgradedSpec(ops[m1.operation], m1)]
                        [m2.operation := UpgradedSpec(ops[m2.operation], m2)],
                     InheritedHooks(s.snapshots[s.active].hooks))
    ensures s2.active == env.snapshotId(s2.snapshots[s2.active])
  {
  }

  /** The same operations, unchanged except for the named ones, under the inherited hooks. */
  ghost predicate OnlyUpgraded(before: Snapshot, after: Snapshot, names: set<string>) {
    && after.ops.Keys == before.ops.Keys
    && (forall name <- before.ops | name !in names :: after.ops[name] == before.ops[name])
    && after.hooks == InheritedHooks(before.hooks)
  }

  /** Upgrades of two different operations commute: when both orders commit they reach the same
      active snapshot with the same content, every other operation unchanged and the hooks
      inherited. */
  lemma UpgradesCommute(env: Env, s: State, p1: string, d1: string, m1: Manifest, p2: string, d2: string, m2: Manifest,
                        agent: string, now: int, s1: State, s2: State, t1: State, t2: State)
    requires m1.operation != m2.operation
    requires SchemaUpgrade(env, s, p1, d1, m1, agent, now) == (s1, Ok(s1.active))
    requires SchemaUpgrade(env, s1, p2, d2, m2, agent, now) == (s2, Ok(s2.active))
    requires SchemaUpgrade(env, s, p2, d2, m2, agent, now) == (t1, Ok(t1.active))
    requires SchemaUpgrade(env, t1, p1, d1, m1, agent, now) == (t2, Ok(t2.active))
    ensures s2.active == t2.active
    ensures s2.active in s2.snapshots && t2.active in t2.snapshots && s2.snapshots[s2.active] == t2.snapshots[t2.active]
    ensures s.active in s.snapshots
    ensures OnlyUpgraded(s.snapshots[s.active], s2.snapshots[s2.active], {m1.operation, m2.operation})
  {
    UpgradeCommitsExactly(env, s, p1, d1, m1, agent, now);
    UpgradeCommitsExactly(env, s1, p2, d2, m2, agent, now);
    UpgradeCommitsExactly(env, s, p2, d2, m2, agent, now);
    UpgradeCommitsExactly(env, t1, p1, d1, m1, agent, now);
    OrdersAgree(env, s, p1, m1, p2, m2, s1, s2, t1, t2);
  }

  lemma OrdersAgree(env: Env, s: State, p1: string, m1: Manifest, p2: string, m2: Manifest,
                    s1: State, s2: State, t1: State, t2: State)
    requires m1.operation != m2.operation
    requires Upgraded(env, s, p1, m1, s1) && Upgraded(env, s1, p2, m2, s2)
    requires Upgraded(env, s, p2, m2, t1) && Upgraded(env, t1, p1, m1, t2)
    ensures s2.active == t2.active && s2.snapshots[s2.active] == t2.snapshots[t2.active]
    ensures OnlyUpgraded(s.snapshots[s.active], s2.snapshots[s2.active], {m1.operation, m2.operation})
  {
    BothInstalled(env, s, p1, m1, s1, p2, m2, s2);
    BothInstalled(env, s, p2, m2, t1, p1, m1, t2);
    var ops: map<string, Spec> := s.snapshots[s.active].ops;
    SwapUpdates(ops, m1.operation, UpgradedSpec(ops[m1.operation], m1), m2.operation,
                UpgradedSpec(ops[m2.operation], m2));
  }

  /** Two manifests whose ids and content digests differ. */
  predicate Unrelated(env: Env, m1: Manifest, m2: Manifest) {
    m1.operation != m2.operation && m1.id != m2.id && env.manifestId(m1) != env.manifestId(m2)
  }

  /** The checks of an upgrade pass before an unrelated one if they pass after it. */
  lemma ReadyBefore(env: Env, s: State, p1: string, m1: Manifest, s1: State, p2: string, m2: Manifest, agent: string,
                    now: int)
    requires Unrelated(env, m1, m2) && p1 != p2
    requires Upgraded(env, s, p1, m1, s1) && UpgradeReady(env, s1, p2, m2, agent, now)
    requires p2 in s.tables.proposals && s.tables.proposals[p2].expectedSnapshot in s.snapshots
    ensures UpgradeReady(env, s, p2, m2, agent, now)
  {
    var p := s.tables.proposals[p2];
    assert s1.tables.proposals[p2] == p;
    assert s1.snapshots[p.expectedSnapshot] == s.snapshots[p.expectedSnapshot];
    var key := s.snapshots[p.expectedSnapshot].ops[m2.operation].bindingKey;
    assert s1.manifests[key].operation == m2.operation;
    assert key in s.manifests && s.manifests[key] == s1.manifests[key];
    assert UpgradeTarget(s, p, m2).Ok?;
    ReplacementBefore(env, s, m1, s1, m2);
  }

  lemma ReplacementBefore(env: Env, s: State, m1: Manifest, s1: State, m2: Manifest)
    requires Unrelated(env, m1, m2)
    requires s1.manifests == s.manifests[m1.id := if m1.id in s.manifests then s.manifests[m1.id] else m1]
    ensures RegisterReplacement(env, s1, m2).Ok? <==> RegisterReplacement(env, s, m2).Ok?
  {
    assert forall id <- s1.manifests ::
      (id in s.manifests && s1.manifests[id] == s.manifests[id]) || s1.manifests[id] == m1;
    assert forall id <- s.manifests :: id in s1.manifests && s1.manifests[id] == s.manifests[id];
  }

  /** And they still pass after an unrelated one. */
  lemma ReadyAfter(env: Env, s: State, p1: string, m1: Manifest, s1: State, p2: string, m2: Manifest, agent: string,
                   now: int)
    requires Unrelated(env, m1, m2) && p1 != p2
    requires Upgraded(env, s, p1, m1, s1) && UpgradeReady(env, s, p2, m2, agent, now)
    ensures UpgradeReady(env, s1, p2, m2, agent, now)
  {
    var p := s.tables.proposals[p2];
    assert s1.tables.proposals[p2] == p;
    assert s1.snapshots[p.expectedSnapshot] == s.snapshots[p.expectedSnapshot];
    assert UpgradeTarget(s1, p, m2).Ok?;
    ReplacementBefore(env, s, m1, s1, m2);
  }

  /** When one order of two unrelated upgrades commits, the other one does exactly when its
      intermediate snapshot is not already stored and the first upgrade changes its operation. */
  lemma OtherOrderCommitsExactly(env: Env, s: State, p1: string, m1: Manifest, p2: string, m2: Manifest,
                                 agent: string, now: int, s1: State, s2: State)
    requires Injective(env) && Unrelated(env, m1, m2) && p1 != p2
    requires p2 in s.tables.proposals && s.tables.proposals[p2].expectedSnapshot in s.snapshots
    requires UpgradeReady(env, s, p1, m1, agent, now) && Upgraded(env, s, p1, m1, s1)
    requires UpgradeReady(env, s1, p2, m2, agent, now) && Upgraded(env, s1, p2, m2, s2)
    ensures m2.operation in s.snapshots[s.active].ops
    ensures (exists t1: State, t2: State ::
               && UpgradeReady(env, s, p2, m2, agent, now) && Upgraded(env, s, p2, m2, t1)
               && UpgradeReady(env, t1, p1, m1, agent, now) && Upgraded(env, t1, p1, m1, t2))
            <==> && env.snapshotId(NextContent(s, m2)) !in s.snapshots
                 && UpgradedSpec(s.snapshots[s.active].ops[m1.operation], m1) != s.snapshots[s.active].ops[m1.operation]
  {
    BothInstalled(env, s, p1, m1, s1, p2, m2, s2);
    ReadyBefore(env, s, p1, m1, s1, p2, m2, agent, now);
    var free := env.snapshotId(NextContent(s, m2)) !in s.snapshots;
    var changes := UpgradedSpec(s.snapshots[s.active].ops[m1.operation], m1) != s.snapshots[s.active].ops[m1.operation];
    if free {
      var (t1, r) := SchemaUpgrade(env, s, p2, "d2", m2, agent, now);
      UpgradeCommitsExactly(env, s, p2, "d2", m2, agent, now);
      ReadyAfter(env, s, p2, m2, t1, p1, m1, agent, now);
      ContentAfter(env, s, p1, m1, s1, p2, m2, s2, t1);
      if changes {
        UpgradeCommitsExactly(env, t1, p1, "d1", m1, agent, now);
        var t2 := SchemaUpgrade(env, t1, p1, "d1", m1, agent, now).0;
        assert Upgraded(env, t1, p1, m1, t2);
      }
    }
    forall t1: State, t2: State |
      && UpgradeReady(env, s, p2, m2, agent, now) && Upgraded(env, s, p2, m2, t1)
      && UpgradeReady(env, t1, p1, m1, agent, now) && Upgraded(env, t1, p1, m1, t2)
      ensures free && changes
    {
      ContentAfter(env, s, p1, m1, s1, p2, m2, s2, t1);
    }
  }

  /** The content the first upgrade would install after the second: already stored only if it is
      what the second one just stored. */
  lemma ContentAfter(env: Env, s: State, p1: string, m1: Manifest, s1: State, p2: string, m2: Manifest, s2: State,
                     t1: State)
    requires Injective(env) && m1.operation != m2.operation
    requires Upgraded(env, s, p1, m1, s1) && Upgraded(env, s1, p2, m2, s2) && Upgraded(env, s, p2, m2, t1)
    ensures t1.active in t1.snapshots && m1.operation in t1.snapshots[t1.active].ops
    ensures env.snapshotId(NextContent(t1, m1)) !in t1.snapshots
            <==> UpgradedSpec(s.snapshots[s.active].ops[m1.operation], m1) != s.snapshots[s.active].ops[m1.operation]
  {
    BothInstalled(env, s, p1, m1, s1, p2, m2, s2);
    var ops: map<string, Spec> := s.snapshots[s.active].ops;
    var u1, u2 := UpgradedSpec(ops[m1.operation], m1), UpgradedSpec(ops[m2.operation], m2);
    SwapUpdates(ops, m1.operation, u1, m2.operation, u2);
    assert BUDGET_CONTRACT in BuiltinHooks;
    var stored, content := t1.snapshots[t1.active], NextContent(t1, m1);
    assert content == s2.snapshots[s2.active];
    assert s2.active !in s.snapshots;
    assert stored.ops[m1.operation] == ops[m1.operation] && content.ops[m1.operation] == u1;
    assert u1 == ops[m1.operation] ==> content.ops == stored.ops;
  }
}

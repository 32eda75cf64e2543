/**
 * The life of a key row: every write that selection, forwarding, key tests, credit fetches and the admin
 * endpoints make, as one transition system over the table.
 */
module Lifecycle {
  import opened Common
  import opened Keys
  import opened KeyPool

  /** app/api/control_plane.py: the fields an update or a batch patch may set. */
  datatype Patch = Patch(
    client: Option<Option<int>>,
    secret: Option<string>,
    dailyQuota: Option<int>,
    maxConcurrent: Option<int>,
    ratePerMin: Option<int>,
    isActive: Option<bool>)

  datatype Write =
    // app/core/forwarder.py
    | MarkActive
    | MarkCooling(now: int, seconds: int)
    | MarkFailed(now: int, seconds: int)
    | Disable
    | DecryptFailure
    | Consume
    | Deduct(cost: nat)
    // app/core/credit_fetcher.py and credit_refresh.py
    | Fetched(remaining: int, planned: int, next: int)
    | FetchUnauthorized
    | FetchRateLimited(now: int)
    | Reschedule(next: int)
    // app/api/control_plane.py
    | Update(patch: Patch)
    | Batch(resetCooldown: bool, changes: Option<Patch>, softDelete: bool)
    | Delete
    | FillIn(client: Option<int>, username: Option<string>, password: Option<string>, verifiedAt: Option<int>)

  /** What create_key and import_keys_text write for a new row. */
  datatype Draft = Draft(
    client: Option<int>,
    provider: string,
    secret: string,
    username: Option<string>,
    password: Option<string>,
    verifiedAt: Option<int>,
    isActive: bool,
    dailyQuota: Option<int>,
    maxConcurrent: int,
    ratePerMin: int,
    today: int)

  datatype Step =
    | Select(visited: set<nat>, m: Moment)
    | Edit(id: int, w: Write)
    | Create(draft: Draft)
    | Purge(id: int)
    | PurgeClient(client: int)
    | ResetQuota(today: int)

  // --- writes on one row ---

  function Activated(k: ApiKey): ApiKey {
    if IsDisabled(k) then k else k.(status := Active, cooldownUntil := None)
  }

  function Cooled(k: ApiKey, now: int, seconds: int): ApiKey {
    if IsDisabled(k) then k else k.(status := Cooling, cooldownUntil := Some(now + seconds * SECOND))
  }

  function Consumed(k: ApiKey): ApiKey {
    var used := k.(dailyUsage := k.dailyUsage + 1, totalRequests := k.totalRequests + 1);
    if Spent(used) then used.(status := QuotaExceeded) else used
  }

  function Deducted(k: ApiKey, cost: int): ApiKey {
    if k.credits.None? then k else k.(credits := Some(Max(0, k.credits.value - cost)))
  }

  function Patched(k: ApiKey, p: Patch): ApiKey {
    var k1 := k.(client := p.client.GetOr(k.client), secret := p.secret.GetOr(k.secret));
    var k2 := if p.dailyQuota.None? then k1
              else
                var q := k1.(dailyQuota := p.dailyQuota);
                if Spent(q) then q.(status := QuotaExceeded) else q;
    var k3 := k2.(maxConcurrent := p.maxConcurrent.GetOr(k2.maxConcurrent),
                  ratePerMin := p.ratePerMin.GetOr(k2.ratePerMin));
    match p.isActive
    case None => k3
    case Some(false) => k3.(isActive := false, status := Disabled)
    case Some(true) => k3.(isActive := true, status := if k3.status == Disabled then Active else k3.status)
  }

  function Deleted(k: ApiKey): ApiKey {
    k.(isActive := false, status := Disabled)
  }

  function CooldownReset(k: ApiKey): ApiKey {
    k.(cooldownUntil := None, status := if Paused(k) && k.isActive then Active else k.status)
  }

  function FilledIn(k: ApiKey, w: Write): ApiKey
    requires w.FillIn?
  {
    k.(client := if k.client.None? then w.client else k.client,
       username := if k.username.GetOr("") == "" && w.username.Some? then w.username else k.username,
       password := if k.password.None? then w.password else k.password,
       verifiedAt := if k.verifiedAt.None? then w.verifiedAt else k.verifiedAt)
  }

  function Written(k: ApiKey, w: Write): ApiKey {
    match w
    case MarkActive => Activated(k)
    case MarkCooling(now, seconds) => Cooled(k, now, seconds)
    case MarkFailed(now, seconds) =>
      if IsDisabled(k) then k else k.(status := Failed, cooldownUntil := Some(now + seconds * SECOND))
    case Disable => Deleted(k)
    case DecryptFailure => k.(isActive := false, status := DecryptFailed)
    case Consume => Consumed(k)
    case Deduct(cost) => Deducted(k, cost)
    case Fetched(remaining, planned, next) =>
      k.(credits := Some(remaining), plan := Some(planned), nextRefreshAt := Some(next))
    case FetchUnauthorized => k.(isActive := false, status := Failed)
    case FetchRateLimited(now) => k.(status := Cooling, cooldownUntil := Some(now))
    case Reschedule(next) => k.(nextRefreshAt := Some(next))
    case Update(patch) => Patched(k, patch)
    case Batch(resetCooldown, changes, softDelete) =>
      var a := if resetCooldown then CooldownReset(k) else k;
      var b := if changes.Some? then Patched(a, changes.value) else a;
      if softDelete then Deleted(b) else b
    case Delete => Deleted(k)
    case FillIn(_, _, _, _) => FilledIn(k, w)
  }

  /** Under its quota at this moment, nothing counting that was used before today's stamp. */
  predicate HasQuota(k: ApiKey, today: int) {
    k.dailyQuota.Some? ==> (if k.quotaResetAt == Some(today) then k.dailyUsage else 0) < k.dailyQuota.value
  }

  /**
   * A key marked failed or cooling for some seconds cannot be selected before less than one of them is left, and then
   * as far as its quota goes, and for a cooling key the store; a key that is off takes no mark.
   */
  lemma {:induction false} MarkMeans(k: ApiKey, now: int, seconds: int, m: Moment)
    ensures var (failed, cooling) := (Written(k, MarkFailed(now, seconds)), Written(k, MarkCooling(now, seconds)));
            if !k.isActive || k.status == Disabled then failed == k && cooling == k
            else
              && failed == k.(status := Failed, cooldownUntil := failed.cooldownUntil)
              && cooling == k.(status := Cooling, cooldownUntil := cooling.cooldownUntil)
              && (Settle(failed, m).1.Free? <==> m.now > now + (seconds - 1) * 1_000_000 && HasQuota(k, m.today))
              && (Settle(cooling, m).1.Free? <==> m.now > now + (seconds - 1) * 1_000_000 && HasQuota(k, m.today)
                                                  && (k.id in m.store ==> m.store[k.id] <= 0))
  {
    FreeMeans(Written(k, MarkFailed(now, seconds)), m);
    FreeMeans(Written(k, MarkCooling(now, seconds)), m);
  }

  /** A key switched off by a 401 or 403, by its decryption, by a fetch or by an admin is never selected. */
  lemma {:induction false} OffMeans(k: ApiKey, w: Write, m: Moment)
    requires w.Disable? || w.DecryptFailure? || w.FetchUnauthorized? || w.Delete?
    ensures var off := Written(k, w);
            off == k.(isActive := false, status := off.status) && !Settle(off, m).1.Free?
  {
    FreeMeans(Written(k, w), m);
  }

  /** A counted request adds one to the day and to the total, and the key is out once the day's count is the quota. */
  lemma {:induction false} ConsumeMeans(k: ApiKey, m: Moment)
    ensures var used := Written(k, Consume);
            && used == k.(dailyUsage := k.dailyUsage + 1, totalRequests := k.totalRequests + 1, status := used.status)
            && (used.status == if k.dailyQuota.Some? && k.dailyUsage + 1 >= k.dailyQuota.value then QuotaExceeded
                               else k.status)
            && (k.quotaResetAt == Some(m.today) && k.dailyQuota.Some? && k.dailyUsage + 1 >= k.dailyQuota.value ==>
                  !Settle(used, m).1.Free?)
  {
    FreeMeans(Written(k, Consume), m);
  }

  // --- steps on the table ---

  function MapRow(keys: Table, id: int, w: Write): (r: Table)
    ensures |r| == |keys|
  {
    seq(|keys|, i requires 0 <= i < |keys| => if keys[i].id == id then Written(keys[i], w) else keys[i])
  }

  function NewRow(id: int, d: Draft): ApiKey {
    ApiKey(id, d.client, d.provider, d.secret, d.username, d.password, d.verifiedAt, d.isActive,
           if d.isActive then Active else Disabled, d.dailyQuota, 0, Some(d.today), d.maxConcurrent, d.ratePerMin,
           None, 0, None, None, None)
  }

  predicate HasSecret(keys: Table, secret: string) {
    exists i :: 0 <= i < |keys| && keys[i].secret == secret
  }

  function NextId(keys: Table): int {
    if keys == [] then 1 else keys[|keys| - 1].id + 1
  }

  function Without(keys: Table, id: int): Table {
    if keys == [] then []
    else
      var front := Without(keys[..|keys| - 1], id);
      if keys[|keys| - 1].id == id then front else front + [keys[|keys| - 1]]
  }

  function ResetRow(k: ApiKey, today: int): ApiKey {
    k.(dailyUsage := 0, quotaResetAt := Some(today),
       status := if k.status == QuotaExceeded && k.isActive then Active else k.status)
  }

  /** A reset makes all of the quota available that day to a key that is on and has no cooldown to wait out. */
  lemma {:induction false} ResetMeans(k: ApiKey, m: Moment)
    ensures var reset := ResetRow(k, m.today);
            && reset == k.(dailyUsage := 0, quotaResetAt := Some(m.today), status := reset.status)
            && (Settle(reset, m).1.Free? <==>
                  && k.isActive && k.status != Disabled && (k.dailyQuota.Some? ==> k.dailyQuota.value > 0)
                  && (k.status == Cooling || k.status == Failed ==>
                        k.cooldownUntil.None? || k.cooldownUntil.value - m.now < 1_000_000)
                  && (k.status == Cooling && k.id in m.store ==> m.store[k.id] <= 0))
  {
    FreeMeans(ResetRow(k, m.today), m);
  }

  /** A reset of the cooldown leaves an enabled key nothing but its quota to wait for. */
  lemma {:induction false} CooldownResetMeans(k: ApiKey, m: Moment)
    ensures var reset := CooldownReset(k);
            && reset == k.(cooldownUntil := None, status := reset.status)
            && (Settle(reset, m).1.Free? <==> k.isActive && k.status != Disabled && HasQuota(k, m.today))
  {
    FreeMeans(CooldownReset(k), m);
  }

  /** A patch sets the fields it names and no counter or cooldown. */
  lemma {:induction false} PatchedMeans(k: ApiKey, p: Patch)
    ensures var row := Patched(k, p);
            && row == k.(client := row.client, secret := row.secret, dailyQuota := row.dailyQuota,
                         maxConcurrent := row.maxConcurrent, ratePerMin := row.ratePerMin, isActive := row.isActive,
                         status := row.status)
            && row.client == (if p.client.Some? then p.client.value else k.client)
            && row.secret == (if p.secret.Some? then p.secret.value else k.secret)
            && row.dailyQuota == (if p.dailyQuota.Some? then p.dailyQuota else k.dailyQuota)
            && row.maxConcurrent == (if p.maxConcurrent.Some? then p.maxConcurrent.value else k.maxConcurrent)
            && row.ratePerMin == (if p.ratePerMin.Some? then p.ratePerMin.value else k.ratePerMin)
            && row.isActive == (if p.isActive.Some? then p.isActive.value else k.isActive)
  {
  }

  /**
   * Switching off takes the key out; switching a disabled one on leaves it nothing but the quota then in force to wait
   * for.
   */
  lemma {:induction false} SwitchMeans(k: ApiKey, p: Patch, m: Moment)
    ensures var row := Patched(k, p);
            && (p.isActive == Some(false) ==> !Settle(row, m).1.Free?)
            && (p.isActive == Some(true) && k.status == Disabled ==>
                  (Settle(row, m).1.Free? <==> HasQuota(row, m.today)))
  {
    FreeMeans(Patched(k, p), m);
  }

  /** A rotation to a secret that another row already has violates the unique hash and is rolled back. */
  predicate Clashes(keys: Table, id: int, w: Write) {
    && w.Update? && w.patch.secret.Some?
    && exists i :: 0 <= i < |keys| && keys[i].id != id && keys[i].secret == w.patch.secret.value
  }

  function Apply(keys: Table, step: Step): Table {
    match step
    case Select(visited, m) => Commit(keys, visited, m)
    case Edit(id, w) => if Clashes(keys, id, w) then keys else MapRow(keys, id, w)
    case Create(draft) => if HasSecret(keys, draft.secret) then keys else keys + [NewRow(NextId(keys), draft)]
    case Purge(id) => Without(keys, id)
    case PurgeClient(client) =>
      seq(|keys|, i requires 0 <= i < |keys| =>
        if keys[i].client == Some(client) then keys[i].(client := None) else keys[i])
    case ResetQuota(today) => seq(|keys|, i requires 0 <= i < |keys| => ResetRow(keys[i], today))
  }

  /** The table reached from the empty one. */
  function Replay(steps: seq<Step>): Table
    decreases |steps|
  {
    if steps == [] then [] else Apply(Replay(steps[..|steps| - 1]), steps[|steps| - 1])
  }

  lemma {:induction false} ReplaySnoc(steps: seq<Step>, step: Step)
    ensures Replay(steps + [step]) == Apply(Replay(steps), step)
  {
    assert (steps + [step])[..|steps|] == steps;
  }

  ghost predicate Reachable(keys: Table) {
    exists steps :: keys == Replay(steps)
  }

  lemma {:induction false} ReachableStep(keys: Table, step: Step)
    requires Reachable(keys)
    ensures Reachable(Apply(keys, step))
  {
    var steps :| keys == Replay(steps);
    ReplaySnoc(steps, step);
  }

  lemma {:induction false} ReachableMeans(keys: Table)
    requires Reachable(keys)
    ensures AllSound(keys) && Sorted(keys)
  {
    var steps :| keys == Replay(steps);
    DisabledMeansInactive(steps);
  }

  // ---------------------------------------------------------------------------
  // Disabled keys are inactive
  // ---------------------------------------------------------------------------

  /** A disabled status means inactive, and usage is never negative. */
  ghost predicate Sound(k: ApiKey) {
    (k.status == Disabled ==> !k.isActive) && k.dailyUsage >= 0
  }

  ghost predicate AllSound(keys: Table) {
    forall i :: 0 <= i < |keys| ==> Sound(keys[i])
  }

  ghost predicate Sorted(keys: Table) {
    forall i, j :: 0 <= i < j < |keys| ==> keys[i].id < keys[j].id
  }

  /** Every row left by Without was there before, in the same order. */
  lemma {:induction false} WithoutKeeps(keys: Table, id: int)
    ensures forall k :: k in Without(keys, id) <==> k in keys && k.id != id
    ensures Sorted(keys) ==> Sorted(Without(keys, id))
  {
    if keys != [] {
      var front, last := keys[..|keys| - 1], keys[|keys| - 1];
      WithoutKeeps(front, id);
      assert keys == front + [last];
      assert Sorted(keys) ==> forall k :: k in front ==> k.id < last.id;
    }
  }

  /** An admin update or batch patch that sets is_active on this key. */
  predicate Enables(step: Step, id: int) {
    && step.Edit? && step.id == id
    && match step.w
       case Update(p) => p.isActive == Some(true)
       case Batch(_, p, softDelete) => p.Some? && p.value.isActive == Some(true) && !softDelete
       case _ => false
  }

  /** A write keeps the id and the soundness of a row, and activates it only if it is an admin enable. */
  lemma {:induction false} WriteMeans(k: ApiKey, w: Write)
    ensures Written(k, w).id == k.id
    ensures Sound(k) ==> Sound(Written(k, w))
    ensures !k.isActive && Written(k, w).isActive ==> Enables(Edit(k.id, w), k.id)
  {
    match w
    case Update(p) => PatchMeans(k, p);
    case Batch(resetCooldown, changes, _) =>
      if changes.Some? {
        PatchMeans(if resetCooldown then CooldownReset(k) else k, changes.value);
      }
    case _ =>
  }

  lemma {:induction false} PatchMeans(k: ApiKey, p: Patch)
    ensures Patched(k, p).id == k.id
    ensures Sound(k) ==> Sound(Patched(k, p))
    ensures !k.isActive && Patched(k, p).isActive ==> p.isActive == Some(true)
  {
  }

  lemma {:induction false} SettleMeans(k: ApiKey, m: Moment)
    ensures Settle(k, m).0.id == k.id && Settle(k, m).0.isActive == k.isActive
    ensures Sound(k) ==> Sound(Settle(k, m).0)
  {
  }

  /** The same for whatever a step other than a purge does to the row in position `i`. */
  lemma {:induction false} RowAfter(keys: Table, step: Step, i: nat)
    requires i < |keys| && !step.Purge?
    ensures i < |Apply(keys, step)| && Apply(keys, step)[i].id == keys[i].id
    ensures Sound(keys[i]) ==> Sound(Apply(keys, step)[i])
    ensures !keys[i].isActive && Apply(keys, step)[i].isActive ==> Enables(step, keys[i].id)
  {
    match step
    case Select(visited, m) => SettleMeans(keys[i], m);
    case Edit(id, w) => WriteMeans(keys[i], w);
    case _ =>
  }

  lemma {:induction false} ApplyKeepsSound(keys: Table, step: Step)
    requires AllSound(keys) && Sorted(keys)
    ensures AllSound(Apply(keys, step)) && Sorted(Apply(keys, step))
  {
    if step.Purge? {
      WithoutKeeps(keys, step.id);
      assert forall i :: 0 <= i < |Without(keys, step.id)| ==> Without(keys, step.id)[i] in keys;
    } else {
      var keys' := Apply(keys, step);
      forall i | 0 <= i < |keys|
        ensures Sound(keys'[i]) && keys'[i].id == keys[i].id
      {
        RowAfter(keys, step, i);
      }
      assert |keys'| == |keys| || (|keys'| == |keys| + 1 && Sound(keys'[|keys|]) && keys'[|keys|].id == NextId(keys));
    }
  }

  /** In every reachable table a disabled status means inactive, so "disabled" and "not active" are the same thing. */
  lemma {:induction false} DisabledMeansInactive(steps: seq<Step>)
    ensures AllSound(Replay(steps)) && Sorted(Replay(steps))
    ensures forall i :: 0 <= i < |Replay(steps)| ==> (IsDisabled(Replay(steps)[i]) <==> !Replay(steps)[i].isActive)
    decreases |steps|
  {
    if steps != [] {
      DisabledMeansInactive(steps[..|steps| - 1]);
      ApplyKeepsSound(Replay(steps[..|steps| - 1]), steps[|steps| - 1]);
    }
  }

  /**
   * So after the early test for an active key, the scan never counts every key as disabled: the second
   * ALL_KEYS_DISABLED branch of `select` is unreachable.
   */
  lemma {:induction false} SecondDisabledBranchIsDead(steps: seq<Step>, client: Option<int>, provider: string,
                                                      m: Moment, index: nat)
    ensures var keys := Replay(steps);
            var ps := Scope(keys, client, provider);
            Choose(keys, ps, m, index).0 == Refused(AllKeysDisabled) <==> ps != [] && NoneActive(keys, ps)
  {
    DisabledMeansInactive(steps);
    OnlyEarlyTest(Replay(steps), Scope(Replay(steps), client, provider), m, index);
  }

  lemma {:induction false} OnlyEarlyTest(keys: Table, ps: seq<nat>, m: Moment, index: nat)
    requires AllSound(keys) && Within(ps, keys)
    ensures Choose(keys, ps, m, index).0 == Refused(AllKeysDisabled) <==> ps != [] && NoneActive(keys, ps)
  {
    if !NoneActive(keys, ps) {
      NotAllOff(keys, ps, m);
    }
  }

  lemma {:induction false} NotAllOff(keys: Table, ps: seq<nat>, m: Moment)
    requires AllSound(keys) && Within(ps, keys) && !NoneActive(keys, ps)
    ensures Count(Verdicts(keys, ps, m)).off < |ps|
  {
    var vs := Verdicts(keys, ps, m);
    var i :| 0 <= i < |ps| && keys[ps[i]].isActive;
    assert vs[i] == Settle(keys[ps[i]], m).1 && !vs[i].Off?;
    Counted(vs, i);
  }

  // ---------------------------------------------------------------------------
  // Only an admin enables
  // ---------------------------------------------------------------------------

  /** The key with this id exists and is active. */
  predicate ActiveIn(keys: Table, id: int) {
    exists i :: 0 <= i < |keys| && keys[i].id == id && keys[i].isActive
  }

  predicate Exists(keys: Table, id: int) {
    exists i :: 0 <= i < |keys| && keys[i].id == id
  }

  /** The key is there but switched off. */
  predicate Dormant(keys: Table, id: int) {
    Exists(keys, id) && !ActiveIn(keys, id)
  }

  lemma {:induction false} DormantAfter(keys: Table, step: Step, id: int)
    requires Dormant(keys, id) && Sorted(keys) && !Enables(step, id) && step != Purge(id)
    ensures Dormant(Apply(keys, step), id)
  {
    var keys' := Apply(keys, step);
    var at :| 0 <= at < |keys| && keys[at].id == id;
    if step.Purge? {
      WithoutKeeps(keys, step.id);
      assert keys[at] in keys';
      assert forall i :: 0 <= i < |keys'| ==> keys'[i] in keys;
    } else {
      forall i | 0 <= i < |keys|
        ensures keys'[i].id == keys[i].id && (keys[i].id == id ==> !keys'[i].isActive)
      {
        RowAfter(keys, step, i);
      }
      assert |keys'| == |keys| || keys'[|keys|].id > keys[at].id;
    }
  }

  lemma {:induction false} DormantAfterStep(before: seq<Step>, last: Step, id: int)
    requires Dormant(Replay(before), id) && !Enables(last, id) && last != Purge(id)
    ensures Dormant(Replay(before + [last]), id)
  {
    DisabledMeansInactive(before);
    ReplaySnoc(before, last);
    DormantAfter(Replay(before), last, id);
  }

  /** Along any run a key that is switched off stays off until an admin enables it, or it is purged. */
  lemma {:induction false} DormantUntilEnabled(steps: seq<Step>, from: nat, until: nat, id: int)
    requires from <= until <= |steps| && Dormant(Replay(steps[..from]), id)
    requires forall n :: from <= n < until ==> !Enables(steps[n], id) && steps[n] != Purge(id)
    ensures Dormant(Replay(steps[..until]), id)
    decreases until
  {
    if from < until {
      var before, last := steps[..until - 1], steps[until - 1];
      assert steps[..until] == before + [last];
      DormantUntilEnabled(steps, from, until - 1, id);
      DormantAfterStep(before, last, id);
    }
  }

  /** Any write that leaves the key inactive, whatever it was before. */
  predicate SwitchesOff(step: Step, id: int) {
    && step.Edit? && step.id == id
    && match step.w
       case Update(p) => p.isActive == Some(false)
       case Batch(_, p, softDelete) => softDelete || (p.Some? && p.value.isActive == Some(false))
       case w => w.Disable? || w.DecryptFailure? || w.FetchUnauthorized? || w.Delete?
  }

  lemma {:induction false} ActiveAfter(keys: Table, step: Step, id: int)
    requires ActiveIn(keys, id) && Sorted(keys) && !SwitchesOff(step, id) && step != Purge(id)
    ensures ActiveIn(Apply(keys, step), id)
  {
    var at :| 0 <= at < |keys| && keys[at].id == id && keys[at].isActive;
    if step.Purge? {
      WithoutKeeps(keys, step.id);
      assert keys[at] in Apply(keys, step);
    } else {
      RowAfter(keys, step, at);
      assert Apply(keys, step)[at].isActive;
    }
  }

  /** An active key stays active along any steps that neither switch it off nor purge it. */
  lemma {:induction false} ActiveUntilSwitchedOff(before: seq<Step>, steps: seq<Step>, id: int)
    requires ActiveIn(Replay(before), id)
    requires forall step :: step in steps ==> !SwitchesOff(step, id) && step != Purge(id)
    ensures ActiveIn(Replay(before + steps), id)
    decreases |steps|
  {
    if steps == [] {
      assert before + steps == before;
    } else {
      var front, last := steps[..|steps| - 1], steps[|steps| - 1];
      ActiveUntilSwitchedOff(before, front, id);
      FrontApart(before, steps);
      ReplaySnoc(before + front, last);
      DisabledMeansInactive(before + front);
      ActiveAfter(Replay(before + front), last, id);
    }
  }

  // ---------------------------------------------------------------------------
  // Who owns a key and whether it is on does not depend on the rest of the row
  // ---------------------------------------------------------------------------

  datatype Bone = Bone(id: int, secret: string, client: Option<int>, provider: string, isActive: bool)

  function BoneOf(k: ApiKey): Bone {
    Bone(k.id, k.secret, k.client, k.provider, k.isActive)
  }

  /** The table without statuses, cooldowns, quotas and counters. */
  function Skeleton(keys: Table): (bones: seq<Bone>)
    ensures |bones| == |keys|
  {
    seq(|keys|, i requires 0 <= i < |keys| => BoneOf(keys[i]))
  }

  lemma {:induction false} SkeletonAt(a: Table, b: Table)
    ensures Skeleton(a) == Skeleton(b) <==> |a| == |b| && forall i :: 0 <= i < |a| ==> BoneOf(a[i]) == BoneOf(b[i])
  {
    if Skeleton(a) == Skeleton(b) {
      forall i | 0 <= i < |a|
        ensures BoneOf(a[i]) == BoneOf(b[i])
      {
        assert Skeleton(a)[i] == Skeleton(b)[i];
      }
    }
  }

  lemma {:induction false} BoneWritten(k: ApiKey, l: ApiKey, w: Write)
    requires BoneOf(k) == BoneOf(l)
    ensures BoneOf(Written(k, w)) == BoneOf(Written(l, w))
  {
    match w
    case Update(p) => BonePatched(k, l, p);
    case Batch(resetCooldown, changes, softDelete) =>
      if changes.Some? {
        BonePatched(if resetCooldown then CooldownReset(k) else k, if resetCooldown then CooldownReset(l) else l,
                    changes.value);
      }
    case FillIn(_, _, _, _) => BoneFilled(k, l, w);
    case _ => PlainBone(k, w); PlainBone(l, w);
  }

  lemma {:induction false} BonePatched(k: ApiKey, l: ApiKey, p: Patch)
    requires BoneOf(k) == BoneOf(l)
    ensures BoneOf(Patched(k, p)) == BoneOf(Patched(l, p))
  {
  }

  lemma {:induction false} BoneFilled(k: ApiKey, l: ApiKey, w: Write)
    requires BoneOf(k) == BoneOf(l) && w.FillIn?
    ensures BoneOf(FilledIn(k, w)) == BoneOf(FilledIn(l, w))
  {
  }

  /** The other writes at most switch the key off, and mark, count and schedule it. */
  lemma {:induction false} PlainBone(k: ApiKey, w: Write)
    requires !w.Update? && !w.Batch? && !w.FillIn?
    ensures BoneOf(Written(k, w)) ==
            BoneOf(k).(isActive :=
              k.isActive && !(w.Disable? || w.DecryptFailure? || w.FetchUnauthorized? || w.Delete?))
  {
  }

  lemma {:induction false} SkeletonWithout(a: Table, b: Table, id: int)
    requires Skeleton(a) == Skeleton(b)
    ensures Skeleton(Without(a, id)) == Skeleton(Without(b, id))
    decreases |a|
  {
    SkeletonAt(a, b);
    if a != [] {
      var n := |a| - 1;
      SkeletonAt(a[..n], b[..n]);
      SkeletonWithout(a[..n], b[..n], id);
      SkeletonMore(Without(a[..n], id), Without(b[..n], id), a[n], b[n]);
    }
  }

  lemma {:induction false} SkeletonMore(a: Table, b: Table, k: ApiKey, l: ApiKey)
    requires Skeleton(a) == Skeleton(b) && BoneOf(k) == BoneOf(l)
    ensures Skeleton(a + [k]) == Skeleton(b + [l])
  {
    SkeletonAt(a, b);
    SkeletonAt(a + [k], b + [l]);
  }

  lemma {:induction false} SecretsAgree(a: Table, b: Table, step: Step)
    requires Skeleton(a) == Skeleton(b)
    ensures step.Create? ==> HasSecret(a, step.draft.secret) == HasSecret(b, step.draft.secret)
    ensures NextId(a) == NextId(b)
    ensures step.Edit? ==> Clashes(a, step.id, step.w) == Clashes(b, step.id, step.w)
  {
    SkeletonAt(a, b);
    assert forall i :: 0 <= i < |a| ==>
                         BoneOf(a[i]) == BoneOf(b[i]) && a[i].secret == b[i].secret && a[i].id == b[i].id;
  }

  /** A step's effect on the skeleton is determined by the skeleton. */
  lemma {:induction false} SkeletonAfter(a: Table, b: Table, step: Step)
    requires Skeleton(a) == Skeleton(b)
    ensures Skeleton(Apply(a, step)) == Skeleton(Apply(b, step))
  {
    SkeletonAt(a, b);
    SecretsAgree(a, b, step);
    match step
    case Purge(id) => SkeletonWithout(a, b, id);
    case Create(draft) =>
      if !HasSecret(a, draft.secret) {
        SkeletonMore(a, b, NewRow(NextId(a), draft), NewRow(NextId(b), draft));
      }
    case _ =>
      forall i | 0 <= i < |a|
        ensures BoneOf(Apply(a, step)[i]) == BoneOf(Apply(b, step)[i])
      {
        BoneAfter(a, b, step, i);
      }
      SkeletonAt(Apply(a, step), Apply(b, step));
  }

  lemma {:induction false} BoneAfter(a: Table, b: Table, step: Step, i: nat)
    requires |a| == |b| && i < |a| && BoneOf(a[i]) == BoneOf(b[i])
    requires step.Edit? ==> Clashes(a, step.id, step.w) == Clashes(b, step.id, step.w)
    requires !step.Purge? && !step.Create?
    ensures |Apply(a, step)| == |a| && |Apply(b, step)| == |b|
    ensures BoneOf(Apply(a, step)[i]) == BoneOf(Apply(b, step)[i])
  {
    match step
    case Select(visited, m) => BoneSettled(a[i], m); BoneSettled(b[i], m);
    case Edit(id, w) => BoneWritten(a[i], b[i], w);
    case _ =>
  }

  lemma {:induction false} BoneSettled(k: ApiKey, m: Moment)
    ensures BoneOf(Settle(k, m).0) == BoneOf(k)
  {
  }

  lemma {:induction false} SkeletonNext(a: seq<Step>, b: seq<Step>, step: Step)
    requires Skeleton(Replay(a)) == Skeleton(Replay(b))
    ensures Skeleton(Replay(a + [step])) == Skeleton(Replay(b + [step]))
  {
    ReplaySnoc(a, step);
    ReplaySnoc(b, step);
    SkeletonAfter(Replay(a), Replay(b), step);
  }

  lemma {:induction false} FrontApart(before: seq<Step>, steps: seq<Step>)
    requires steps != []
    ensures before + steps == (before + steps[..|steps| - 1]) + [steps[|steps| - 1]]
  {
  }

  lemma {:induction false} SkeletonAfterAll(a: seq<Step>, b: seq<Step>, steps: seq<Step>)
    requires Skeleton(Replay(a)) == Skeleton(Replay(b))
    ensures Skeleton(Replay(a + steps)) == Skeleton(Replay(b + steps))
    decreases |steps|
  {
    if steps == [] {
      assert a + steps == a && b + steps == b;
    } else {
      var front, last := steps[..|steps| - 1], steps[|steps| - 1];
      SkeletonAfterAll(a, b, front);
      SkeletonNext(a + front, b + front, last);
      FrontApart(a, steps);
      FrontApart(b, steps);
    }
  }

  /** Whether a key exists and is on can be read off the skeleton. */
  lemma {:induction false} ActiveBySkeleton(a: Table, b: Table, id: int)
    requires Skeleton(a) == Skeleton(b)
    ensures ActiveIn(a, id) == ActiveIn(b, id)
  {
    SkeletonAt(a, b);
    assert forall i :: 0 <= i < |a| ==>
                         BoneOf(a[i]) == BoneOf(b[i]) && a[i].isActive == b[i].isActive && a[i].id == b[i].id;
  }

  // ---------------------------------------------------------------------------
  // When a cooldown is honoured
  // ---------------------------------------------------------------------------

  /** The pool reads `cooldown_until` only behind a cooling or failed status; here the two go together. */
  predicate Tidy(k: ApiKey) {
    k.isActive && k.cooldownUntil.Some? ==> Paused(k)
  }

  /**
   * The writes that replace the cooling or failed status while the cooldown stays set: consuming the last of
   * the quota, lowering the quota below today's usage, and enabling a key that was switched off while cooling.
   */
  predicate Overwrites(k: ApiKey, w: Write) {
    match w
    case Consume => k.isActive && k.cooldownUntil.Some? && k.dailyQuota.Some? && k.dailyUsage + 1 >= k.dailyQuota.value
    case Update(p) => PatchOverwrites(k, p)
    case Batch(resetCooldown, changes, softDelete) =>
      !resetCooldown && !softDelete && changes.Some? && PatchOverwrites(k, changes.value)
    case _ => false
  }

  predicate PatchOverwrites(k: ApiKey, p: Patch) {
    && k.cooldownUntil.Some?
    && p.isActive.GetOr(k.isActive)
    && ((p.dailyQuota.Some? && k.dailyUsage >= p.dailyQuota.value) || !Paused(k))
  }

  /** Exactly those writes separate status and cooldown. */
  lemma {:induction false} OverwritesExactly(k: ApiKey, w: Write)
    requires Tidy(k)
    ensures Tidy(Written(k, w)) <==> !Overwrites(k, w)
  {
    match w
    case Update(p) => PatchOverwritesExactly(k, p);
    case Batch(resetCooldown, changes, softDelete) =>
      if changes.Some? {
        PatchOverwritesExactly(if resetCooldown then CooldownReset(k) else k, changes.value);
      }
    case _ =>
  }

  lemma {:induction false} PatchOverwritesExactly(k: ApiKey, p: Patch)
    requires Tidy(k)
    ensures Tidy(Patched(k, p)) <==> !PatchOverwrites(k, p)
  {
  }

  /** The pool keeps the promise on this row: whenever it is selectable, less than one second of cooldown is left. */
  ghost predicate Honours(k: ApiKey) {
    k.cooldownUntil.Some? ==> forall m :: Settle(k, m).1.Free? ==> k.cooldownUntil.value - m.now < SECOND
  }

  /** A quota that no usage is under. */
  predicate Barred(k: ApiKey) {
    k.dailyQuota.Some? && k.dailyQuota.value <= 0
  }

  /** The promise holds on a row exactly when its status goes with its cooldown, or its quota bars it from selection. */
  lemma {:induction false} HonoursExactly(k: ApiKey)
    requires Sound(k)
    ensures Honours(k) <==> Tidy(k) || Barred(k)
  {
    if k.cooldownUntil.Some? {
      if Tidy(k) || Barred(k) {
        forall m | Settle(k, m).1.Free?
          ensures k.cooldownUntil.value - m.now < SECOND
        {
          FreeMeans(k, m);
          FreeAfterPause(k, m);
        }
      } else {
        var m := DayAfter(k);
        FreeMeans(k, m);
        assert Settle(k, m).1.Free?;
      }
    }
  }

  /** One second before the cooldown ends, on a day for which nothing is used yet. */
  function DayAfter(k: ApiKey): Moment
    requires k.cooldownUntil.Some?
  {
    Moment(k.cooldownUntil.value - SECOND, k.quotaResetAt.GetOr(0) + 1, map[], 0)
  }

  /** The quota after a write: the patch's, if it has one. */
  function QuotaAfter(k: ApiKey, w: Write): Option<int> {
    match w
    case Update(p) => if p.dailyQuota.Some? then p.dailyQuota else k.dailyQuota
    case Batch(_, p, _) => if p.Some? && p.value.dailyQuota.Some? then p.value.dailyQuota else k.dailyQuota
    case _ => k.dailyQuota
  }

  lemma {:induction false} QuotaWritten(k: ApiKey, w: Write)
    ensures Written(k, w).dailyQuota == QuotaAfter(k, w)
  {
  }

  /** So of the writes on a tidy row, exactly the overwrites under a positive quota, or none, break the promise. */
  lemma {:induction false} BreaksThePromiseExactly(k: ApiKey, w: Write)
    requires Sound(k) && Tidy(k)
    ensures !Honours(Written(k, w))
            <==> Overwrites(k, w) && (QuotaAfter(k, w).Some? ==> QuotaAfter(k, w).value > 0)
  {
    WriteMeans(k, w);
    QuotaWritten(k, w);
    HonoursExactly(Written(k, w));
    OverwritesExactly(k, w);
  }

  /** In every reachable table the promise holds exactly on the rows that are tidy or barred. */
  lemma {:induction false} CooldownHonouredExactly(steps: seq<Step>, i: nat)
    requires i < |Replay(steps)|
    ensures Honours(Replay(steps)[i]) <==> Tidy(Replay(steps)[i]) || Barred(Replay(steps)[i])
  {
    DisabledMeansInactive(steps);
    HonoursExactly(Replay(steps)[i]);
  }

  lemma {:induction false} TidyAfter(keys: Table, step: Step, i: nat)
    requires i < |keys| && !step.Purge? && Tidy(keys[i])
    requires step.Edit? && step.id == keys[i].id ==> !Overwrites(keys[i], step.w)
    ensures i < |Apply(keys, step)| && Tidy(Apply(keys, step)[i])
  {
    if step.Edit? {
      OverwritesExactly(keys[i], step.w);
    }
  }

  ghost predicate AllTidy(keys: Table) {
    forall i :: 0 <= i < |keys| ==> Tidy(keys[i])
  }

  /** The step does not overwrite a cooldown still running on this row. */
  ghost predicate Spares(step: Step, k: ApiKey) {
    step.Edit? && step.id == k.id ==> !Overwrites(k, step.w)
  }

  /** No edit of the run is an overwrite of the row it lands on. */
  ghost predicate Gentle(steps: seq<Step>) {
    forall n, i :: 0 <= n < |steps| && 0 <= i < |Replay(steps[..n])| ==> Spares(steps[n], Replay(steps[..n])[i])
  }

  lemma {:induction false} GentleRunsAreTidy(steps: seq<Step>)
    requires Gentle(steps)
    ensures AllTidy(Replay(steps))
    decreases |steps|
  {
    if steps != [] {
      var n := |steps| - 1;
      var front, step := steps[..n], steps[n];
      forall j, i | 0 <= j < n && 0 <= i < |Replay(front[..j])|
        ensures Spares(front[j], Replay(front[..j])[i])
      {
        assert front[..j] == steps[..j];
      }
      GentleRunsAreTidy(front);
      var keys := Replay(front);
      forall i | 0 <= i < |keys|
        ensures Spares(step, keys[i])
      {
        assert Spares(steps[n], Replay(steps[..n])[i]);
      }
      TableStaysTidy(keys, step);
    }
  }

  lemma {:induction false} TableStaysTidy(keys: Table, step: Step)
    requires AllTidy(keys) && forall i :: 0 <= i < |keys| ==> Spares(step, keys[i])
    ensures AllTidy(Apply(keys, step))
  {
    if step.Purge? {
      WithoutKeeps(keys, step.id);
      assert forall i :: 0 <= i < |Without(keys, step.id)| ==> Without(keys, step.id)[i] in keys;
    } else {
      forall i | 0 <= i < |keys|
        ensures Tidy(Apply(keys, step)[i])
      {
        assert Spares(step, keys[i]);
        TidyAfter(keys, step, i);
      }
    }
  }

  /** After a gentle run the promise holds on every row. */
  lemma {:induction false} CooldownIsHonoured(steps: seq<Step>, i: nat)
    requires Gentle(steps) && i < |Replay(steps)|
    ensures Honours(Replay(steps)[i])
  {
    GentleRunsAreTidy(steps);
    CooldownHonouredExactly(steps, i);
  }

  /**
   * Without that condition it fails: a key told to wait an hour, whose last unit of quota is consumed by a
   * request already in flight, is selectable as soon as the quotas are reset.
   */
  lemma {:induction false} CooldownCanBeForgotten(m: Moment)
    requires m.now == 0 && m.today == 1
    ensures var draft := Draft(None, "firecrawl", "s", None, None, None, true, Some(1), 1, 60, 1);
            var keys := Replay([Create(draft), Edit(1, MarkCooling(0, 3600)), Edit(1, Consume), ResetQuota(1)]);
            |keys| == 1 && keys[0].cooldownUntil == Some(3600 * SECOND) && Settle(keys[0], m).1.Free?
  {
    var draft := Draft(None, "firecrawl", "s", None, None, None, true, Some(1), 1, 60, 1);
    ReplayFour(Create(draft), Edit(1, MarkCooling(0, 3600)), Edit(1, Consume), ResetQuota(1));
    var row := NewRow(1, draft);
    var cooled := Cooled(row, 0, 3600);
    assert Apply([], Create(draft)) == [row];
    assert Apply([row], Edit(1, MarkCooling(0, 3600))) == [cooled];
    assert Apply([cooled], Edit(1, Consume)) == [Consumed(cooled)];
    assert Apply([Consumed(cooled)], ResetQuota(1)) == [ResetRow(Consumed(cooled), 1)];
  }

  lemma {:induction false} ReplayFour(a: Step, b: Step, c: Step, d: Step)
    ensures Replay([a, b, c, d]) == Apply(Apply(Apply(Apply([], a), b), c), d)
  {
    ReplaySnoc([a, b, c], d);
    ReplaySnoc([a, b], c);
    ReplaySnoc([a], b);
    ReplaySnoc([], a);
    assert [a, b, c] + [d] == [a, b, c, d] && [a, b] + [c] == [a, b, c] && [a] + [b] == [a, b] && [] + [a] == [a];
  }
}

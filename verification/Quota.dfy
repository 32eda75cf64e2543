/** A key's daily quota over whole runs of the table: app/core/key_pool.py and app/core/forwarder.py. */
module Quota {
  import opened Common
  import opened Keys
  import opened Lifecycle
  import opened Forwarding
  import KeyPool

  /** A step of the day that leaves the key in the table, its quota as it is, and its count to the requests. */
  predicate WithinDay(step: Step, id: int, today: int) {
    match step
    case Select(_, m) => m.today == today
    case Edit(edited, Update(p)) => edited == id ==> p.dailyQuota.None?
    case Edit(edited, Batch(_, p, _)) => edited == id && p.Some? ==> p.value.dailyQuota.None?
    case Purge(purged) => purged != id
    case ResetQuota(_) => false
    case _ => true
  }

  ghost predicate AllWithinDay(steps: seq<Step>, id: int, today: int) {
    forall n :: 0 <= n < |steps| ==> WithinDay(steps[n], id, today)
  }

  /** How many requests on the key these steps count. */
  function Uses(steps: seq<Step>, id: int): nat {
    if steps == [] then 0
    else Uses(steps[..|steps| - 1], id) + if steps[|steps| - 1] == Edit(id, Consume) then 1 else 0
  }

  /** The row is stamped with the day, has this quota, and so much of it is used. */
  predicate Metered(k: ApiKey, today: int, quota: Option<int>, used: int) {
    k.quotaResetAt == Some(today) && k.dailyQuota == quota && k.dailyUsage == used
  }

  ghost predicate MeteredIn(keys: Table, id: int, today: int, quota: Option<int>, used: int) {
    Find(keys, id).Some? && Metered(Find(keys, id).value, today, quota, used)
  }

  lemma {:induction false} MeteredAt(keys: Table, i: nat, id: int, today: int, quota: Option<int>, used: int)
    requires Sorted(keys) && i < |keys| && keys[i].id == id && Metered(keys[i], today, quota, used)
    ensures MeteredIn(keys, id, today, quota, used)
  {
    FindIsUnique(keys, id, i);
  }

  /** A write other than a quota patch changes the meter only by counting a request. */
  lemma {:induction false} WriteMeters(k: ApiKey, w: Write, today: int, quota: Option<int>, used: int)
    requires Metered(k, today, quota, used) && WithinDay(Edit(k.id, w), k.id, today)
    ensures Metered(Written(k, w), today, quota, used + if w.Consume? then 1 else 0)
  {
  }

  lemma {:induction false} RowMeters(keys: Table, keys': Table, step: Step, i: nat, today: int, quota: Option<int>,
                                     used: int)
    requires keys' == Apply(keys, step) && i < |keys| && !step.Purge?
    requires Metered(keys[i], today, quota, used) && WithinDay(step, keys[i].id, today)
    ensures i < |keys'| && keys'[i].id == keys[i].id
    ensures Metered(keys'[i], today, quota, used + if step == Edit(keys[i].id, Consume) then 1 else 0)
  {
    match step
    case Select(visited, m) => KeyPool.SettledMeans(keys[i], m);
    case Edit(id, w) =>
      WriteMeans(keys[i], w);
      if id == keys[i].id {
        WriteMeters(keys[i], w, today, quota, used);
      }
    case _ =>
  }

  lemma {:induction false} StepMeters(keys: Table, keys': Table, step: Step, id: int, today: int, quota: Option<int>,
                                      used: int)
    requires Sorted(keys) && Sorted(keys') && keys' == Apply(keys, step)
    requires MeteredIn(keys, id, today, quota, used) && WithinDay(step, id, today)
    ensures MeteredIn(keys', id, today, quota, used + if step == Edit(id, Consume) then 1 else 0)
  {
    var i :| 0 <= i < |keys| && keys[i] == Find(keys, id).value;
    if step.Purge? {
      WithoutKeeps(keys, step.id);
      assert keys[i] in keys';
      var j :| 0 <= j < |keys'| && keys'[j] == keys[i];
      MeteredAt(keys', j, id, today, quota, used);
    } else {
      RowMeters(keys, keys', step, i, today, quota, used);
      MeteredAt(keys', i, id, today, quota, used + if step == Edit(id, Consume) then 1 else 0);
    }
  }

  /**
   * The day's usage is what it was plus the requests counted since, whatever selections of the day, markings, fetches
   * and admin edits of other fields come in between.
   */
  lemma {:induction false} UsageIsCounted(before: seq<Step>, since: seq<Step>, id: int, today: int, quota: Option<int>,
                                          used: int)
    requires MeteredIn(Replay(before), id, today, quota, used) && AllWithinDay(since, id, today)
    ensures MeteredIn(Replay(before + since), id, today, quota, used + Uses(since, id))
    decreases |since|
  {
    if since == [] {
      assert before + since == before;
    } else {
      var front, last := since[..|since| - 1], since[|since| - 1];
      UsageIsCounted(before, front, id, today, quota, used);
      FrontApart(before, since);
      ReplaySnoc(before + front, last);
      DisabledMeansInactive(before + front);
      DisabledMeansInactive(before + since);
      StepMeters(Replay(before + front), Replay(before + since), last, id, today, quota, used + Uses(front, id));
    }
  }

  /**
   * The law of the daily quota: over any such run of one day, a key can be selected only while the requests counted
   * on it have not reached its quota, and then exactly if it is on and has no cooldown to wait out.
   */
  lemma {:induction false} QuotaHolds(before: seq<Step>, since: seq<Step>, id: int, quota: int, used: int,
                                      m: KeyPool.Moment)
    requires MeteredIn(Replay(before), id, m.today, Some(quota), used) && AllWithinDay(since, id, m.today)
    ensures Find(Replay(before + since), id).Some?
    ensures var k := Find(Replay(before + since), id).value;
            && (used + Uses(since, id) >= quota ==> !KeyPool.Settle(k, m).1.Free?)
            && (used + Uses(since, id) < quota && k.isActive && k.status in {Active, QuotaExceeded} ==>
                  KeyPool.Settle(k, m).1.Free?)
  {
    UsageIsCounted(before, since, id, m.today, Some(quota), used);
    KeyPool.FreeMeans(Find(Replay(before + since), id).value, m);
  }

  /** A selection stamps every enabled row it passes, and the count starts over if the stamp is of another day. */
  lemma {:induction false} SelectStamps(before: seq<Step>, visited: set<nat>, m: KeyPool.Moment, i: nat)
    requires i < |Replay(before)| && i in visited && Replay(before)[i].isActive
    ensures var k := Replay(before)[i];
            MeteredIn(Replay(before + [Select(visited, m)]), k.id, m.today, k.dailyQuota,
                      if k.quotaResetAt == Some(m.today) then k.dailyUsage else 0)
  {
    var keys, step := Replay(before), Select(visited, m);
    DisabledMeansInactive(before);
    DisabledMeansInactive(before + [step]);
    ReplaySnoc(before, step);
    KeyPool.SettledMeans(keys[i], m);
    MeteredAt(Replay(before + [step]), i, keys[i].id, m.today, keys[i].dailyQuota,
              if keys[i].quotaResetAt == Some(m.today) then keys[i].dailyUsage else 0);
  }

  /**
   * From a day's first selection that passes the key on, no call's pool loop sends on it at a time of that day once its
   * quota of requests has been counted.
   */
  lemma {:induction false} NoSendBeyondQuota(history: seq<Step>, from: nat, i: nat, s: Send, client: int,
                                             provider: string)
    requires PoolSend(s, history, client, provider) && from < s.at
    requires history[from].Select? && history[from].m.today == s.tick.m.today && i in history[from].visited
    requires i < |Replay(history[..from])| && Replay(history[..from])[i].isActive
    requires Replay(history[..from])[i].quotaResetAt != Some(s.tick.m.today)
    requires Replay(history[..from])[i].dailyQuota.Some? && Replay(history[..from])[i].id == s.row.id
    requires AllWithinDay(history[from + 1..s.at], s.row.id, s.tick.m.today)
    ensures Uses(history[from + 1..s.at], s.row.id) < Replay(history[..from])[i].dailyQuota.value
  {
    var before, since := history[..from + 1], history[from + 1..s.at];
    var quota := Replay(history[..from])[i].dailyQuota.value;
    assert before == history[..from] + [Select(history[from].visited, history[from].m)];
    assert before + since == history[..s.at];
    SelectStamps(history[..from], history[from].visited, history[from].m, i);
    QuotaHolds(before, since, s.row.id, quota, 0, s.tick.m);
    DisabledMeansInactive(history[..s.at]);
    var j :| 0 <= j < |Replay(history[..s.at])| && Replay(history[..s.at])[j] == s.row;
    FindIsUnique(Replay(history[..s.at]), s.row.id, j);
  }
}

/** The key rows of app/db/models.py that the protocols read and write. */
module Keys {
  import opened Common

  datatype Status = Active | Cooling | Failed | QuotaExceeded | Disabled | DecryptFailed

  /** `secret` stands for the plaintext behind the stored hash and ciphertext; hashing is taken as injective. */
  datatype ApiKey = ApiKey(
    id: int,
    client: Option<int>,
    provider: string,
    secret: string,
    username: Option<string>,
    password: Option<string>,
    verifiedAt: Option<int>,
    isActive: bool,
    status: Status,
    dailyQuota: Option<int>,
    dailyUsage: int,
    quotaResetAt: Option<int>,
    maxConcurrent: int,
    ratePerMin: int,
    cooldownUntil: Option<int>,
    totalRequests: int,
    credits: Option<int>,
    plan: Option<int>,
    nextRefreshAt: Option<int>)

  /** The key table in id order, the order every query asks for. */
  type Table = seq<ApiKey>

  /** The quota of the day is used up. */
  predicate Spent(k: ApiKey) {
    k.dailyQuota.Some? && k.dailyUsage >= k.dailyQuota.value
  }

  /** app/core/key_pool.py: _is_disabled. */
  predicate IsDisabled(k: ApiKey) {
    !k.isActive || k.status == Disabled
  }

  /** A status that makes the pool look at the cooldown. */
  predicate Paused(k: ApiKey) {
    k.status == Cooling || k.status == Failed
  }
}

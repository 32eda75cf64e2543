/** The client row of app/db/models.py, as far as admission and quota counting use it. */
module Clients {
  import opened Common

  class ClientAccount {
    const id: int
    const dailyQuota: Option<int>
    const maxConcurrent: int
    const ratePerMin: int
    var dailyUsage: int
    var quotaResetAt: Option<int>

    constructor (id: int, dailyQuota: Option<int>, maxConcurrent: int, ratePerMin: int)
      ensures this.id == id && this.dailyQuota == dailyQuota
      ensures this.maxConcurrent == maxConcurrent && this.ratePerMin == ratePerMin
      ensures dailyUsage == 0 && quotaResetAt == None
    {
      this.id, this.dailyQuota, this.maxConcurrent, this.ratePerMin := id, dailyQuota, maxConcurrent, ratePerMin;
      dailyUsage, quotaResetAt := 0, None;
    }
  }
}

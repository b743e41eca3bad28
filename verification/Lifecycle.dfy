/** The statuses of a bootstrapped market, and why one graduated. */
module Lifecycle {
  datatype Status =
    Active | Disabled | PendingAuthorization | PendingFunding | PendingLaunch | Paused | Error | Graduated

  datatype Reason = MarketClosed | MaxAge | Volume | OrganicDepth | Manual
}

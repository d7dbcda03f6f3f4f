/** The usage balance of a user account: each charged analysis uses one
    unit, a package purchase adds its units. Persisting the account is not
    modelled. */
module UserController {
  class UserAccount {
    var sumCount: int

    constructor(sumCount: int)
      ensures this.sumCount == sumCount
    {
      this.sumCount := sumCount;
    }

    /** `minus_sum_count`: uses one unit when any is left. */
    method MinusSumCount() returns (charged: bool)
      modifies this
      ensures charged <==> old(sumCount) > 0
      ensures charged ==> sumCount == old(sumCount) - 1
      ensures !charged ==> sumCount == old(sumCount)
      ensures old(sumCount) >= 0 ==> sumCount >= 0
    {
      if sumCount > 0 {
        sumCount := sumCount - 1;
        charged := true;
      } else {
        charged := false;
      }
    }

    /** `purchase`: adds the package's units. */
    method Purchase(sumNum: int)
      modifies this
      ensures sumCount == old(sumCount) + sumNum
    {
      sumCount := sumCount + sumNum;
    }
  }
}

/** The vesting account (`state/vesting.rs`) as the program keeps it. */
module VestingAccounts {
  import opened Numbers
  import opened Vestings

  class Vesting {
    const position: Id
    const cliffPoint: uint64
    const periodFrequency: uint64
    const cliffUnlockLiquidity: uint128
    const liquidityPerPeriod: uint128
    const numberOfPeriod: uint16
    var totalReleasedLiquidity: uint128

    function View(): VestingView
      reads this
    {
      VestingView(position, cliffPoint, periodFrequency, cliffUnlockLiquidity, liquidityPerPeriod, numberOfPeriod,
                  totalReleasedLiquidity)
    }

    constructor (position: Id, cliffPoint: uint64, periodFrequency: uint64, cliffUnlockLiquidity: uint128,
                 liquidityPerPeriod: uint128, numberOfPeriod: uint16)
      ensures View() == VestingView(position, cliffPoint, periodFrequency, cliffUnlockLiquidity, liquidityPerPeriod,
                                    numberOfPeriod, 0)
    {
      this.position, this.cliffPoint, this.periodFrequency := position, cliffPoint, periodFrequency;
      this.cliffUnlockLiquidity, this.liquidityPerPeriod := cliffUnlockLiquidity, liquidityPerPeriod;
      this.numberOfPeriod, totalReleasedLiquidity := numberOfPeriod, 0;
    }

    method AccumulateReleasedLiquidity(released: uint128) returns (r: Result<()>)
      modifies this
      ensures r == old(View()).AccumulateReleased(released).Status()
      ensures r.Ok? ==> View() == old(View()).AccumulateReleased(released).value
    {
      totalReleasedLiquidity :- Checked128(totalReleasedLiquidity + released);
      return Ok(());
    }
  }
}

/** The conversation states of the bot (the UserState states group). */
module Fsm {

  datatype UserState =
    | Unauthorized
    | Authorized
    | WaitingForShopName
    | WaitingForLocation
    | WaitingForTypePhoto
    | WaitingForCompetitorBrand
    | WaitingForDmpBrand
    | WaitingForCompetitorCountAfterBrand
    | WaitingForPhoto

  /** The states in declaration order. */
  const ALL_STATES: seq<UserState> := [
    Unauthorized, Authorized, WaitingForShopName, WaitingForLocation, WaitingForTypePhoto,
    WaitingForCompetitorBrand, WaitingForDmpBrand, WaitingForCompetitorCountAfterBrand, WaitingForPhoto
  ]

  /** Exactly nine distinct states are declared. */
  lemma NineDistinctStates()
    ensures |ALL_STATES| == 9
    ensures forall i, j :: 0 <= i < j < |ALL_STATES| ==> ALL_STATES[i] != ALL_STATES[j]
    ensures forall s: UserState :: s in ALL_STATES
  {
    forall s: UserState
      ensures s in ALL_STATES
    {
      var k := match s
        case Unauthorized => 0
        case Authorized => 1
        case WaitingForShopName => 2
        case WaitingForLocation => 3
        case WaitingForTypePhoto => 4
        case WaitingForCompetitorBrand => 5
        case WaitingForDmpBrand => 6
        case WaitingForCompetitorCountAfterBrand => 7
        case WaitingForPhoto => 8;
      assert ALL_STATES[k] == s;
    }
  }
}

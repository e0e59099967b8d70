/** `generateBcryptHash`: checks the password and the cost factor before handing
    both to the bcrypt library, which is not modelled; the result is the call
    the library receives. */
module BcryptHasher {
  import opened Wrappers
  import opened JsNumber

  const MinCost := 4
  const MaxCost := 31
  const DefaultCost := 12

  datatype HashError = PasswordRequired | InvalidCost

  /** The arguments of the `bcrypt.hash` call. */
  datatype HashCall = HashCall(password: string, rounds: int)

  /** `Math.trunc` on any number: NaN and the infinities are kept. */
  function TruncNum(x: Num): (r: Num)
    ensures x.Finite? ==> r == Finite(Trunc(x.value) as real)
    ensures !x.Finite? ==> r == x
  {
    match x
    case Finite(v) => Finite(Trunc(v) as real)
    case _ => x
  }

  /** `generateBcryptHash(password, cost)`; an omitted cost (`None`) is 12. */
  function GenerateBcryptHash(password: string, cost: Option<Num>): (r: Result<HashCall, HashError>)
    ensures password == "" ==> r == Failure(PasswordRequired)
    ensures r.Success? ==> r.value.password == password && MinCost <= r.value.rounds <= MaxCost
    ensures r.Success? && cost.Some? ==> cost.value.Finite? && r.value.rounds == Trunc(cost.value.value)
    ensures r.Success? && cost.None? ==> r.value.rounds == DefaultCost
  {
    if password == "" then Failure(PasswordRequired)
    else
      var normalizedCost := TruncNum(cost.GetOr(Finite(DefaultCost as real)));
      match normalizedCost
      case NaN => Failure(InvalidCost)
      case Infinity(positive) => Failure(InvalidCost)
      case Finite(c) =>
        if c < MinCost as real || c > MaxCost as real then Failure(InvalidCost)
        else Success(HashCall(password, c.Floor))
  }

  /** A non-empty password is hashed exactly when the cost is omitted or is a
      finite number in `[4, 32)`; every other cost, NaN and the infinities
      included, is refused. */
  lemma CostAcceptedIff(password: string, cost: Option<Num>)
    requires password != ""
    ensures GenerateBcryptHash(password, cost).Success? <==>
      cost.None? || (cost.value.Finite? && 4.0 <= cost.value.value < 32.0)
  {
    if cost.Some? && cost.value.Finite? {
      TruncInRange(cost.value.value, MinCost, MaxCost);
    }
  }

  /** The default cost is 12. */
  lemma DefaultCostIsTwelve(password: string)
    requires password != ""
    ensures GenerateBcryptHash(password, None) == Success(HashCall(password, 12))
  {
  }

  /** A fractional cost is truncated toward zero: 4.9 hashes with 4 rounds,
      3.9 is refused. */
  lemma FractionalCostTruncates(password: string)
    requires password != ""
    ensures GenerateBcryptHash(password, Some(Finite(4.9))) == Success(HashCall(password, 4))
    ensures GenerateBcryptHash(password, Some(Finite(3.9))) == Failure(InvalidCost)
  {
    assert Trunc(4.9) == 4;
    assert Trunc(3.9) == 3;
  }
}

/** Reward claims, account creation and the burning of whatever reaches the null account. */
module Claims {
  import opened Basics
  import opened Sums
  import opened Assets
  import opened Ledger

  /** The STEEM that moves into the vesting fund with a claim: everything with the last share, else pro rata. */
  function ClaimedSteem(s: Stake, vests: int): int
    requires vests <= s.rewardVests && 0 <= vests
  {
    if vests == s.rewardVests then s.rewardVestSteem else MulDiv(vests, s.rewardVestSteem, s.rewardVests)
  }

  lemma ClaimedSteemBounds(s: Stake, vests: int)
    requires StakeOk(s) && 0 <= vests <= s.rewardVests
    ensures 0 <= ClaimedSteem(s, vests) <= s.rewardVestSteem
  {
    if vests < s.rewardVests {
      MulDivShare(s.rewardVestSteem, vests, s.rewardVests);
      assert vests * s.rewardVestSteem == s.rewardVestSteem * vests;
    }
  }

  /** Pending shares take their part of the pending STEEM with them, rounded down, and the last of them all of it. */
  lemma ClaimIsProRata(s: Stake, vests: int)
    requires StakeOk(s) && 0 <= vests <= s.rewardVests
    ensures var c := ClaimedSteem(s, vests);
      if vests < s.rewardVests then c * s.rewardVests <= vests * s.rewardVestSteem < (c + 1) * s.rewardVests else c == s.rewardVestSteem
  {
    if vests < s.rewardVests {
      MulDivBounds(vests, s.rewardVestSteem, s.rewardVests);
    }
  }

  /** Shares never enter circulation without STEEM behind them, unless the very first ones claimed round to nothing. */
  predicate ClaimBacked(p: Props, s: Stake, vests: int)
    requires vests <= s.rewardVests && 0 <= vests
  {
    vests == 0 || 0 < p.vestingShares || 0 < p.vestingFund + ClaimedSteem(s, vests)
  }

  /** claim_reward_balance. */
  method ClaimRewards(db: Database, a: Account, steem: int, sbd: int, vests: int) returns (ok: bool)
    requires db.Valid() && 0 <= steem && 0 <= sbd && 0 <= vests
    modifies db`purses, db`stakes, db`props
    ensures ok ==> a in old(db.purses) && steem <= old(db.purses)[a].rewardSteem && sbd <= old(db.purses)[a].rewardSbd
    ensures ok ==> vests <= old(db.stakes)[a].rewardVests
    ensures ok ==> db.Linked() && db.Balanced()
    ensures ok ==> (db.Covered() <==> ClaimBacked(old(db.props), old(db.stakes)[a], vests))
    ensures ok ==> var s, moved := old(db.stakes)[a], ClaimedSteem(old(db.stakes)[a], vests);
      && db.stakes == old(db.stakes)[a := Stake(s.vests + vests, s.rewardVests - vests, s.rewardVestSteem - moved)]
      && db.props.vestingFund == old(db.props).vestingFund + moved
      && db.props.pendingSteem == old(db.props).pendingSteem - moved
      && db.props.vestingShares == old(db.props).vestingShares + vests
      && db.props.pendingShares == old(db.props).pendingShares - vests
    ensures ok ==> var p := old(db.purses)[a].(rewardSteem := old(db.purses)[a].rewardSteem - steem, rewardSbd := old(db.purses)[a].rewardSbd - sbd);
      db.purses == old(db.purses)[a := CreditedBoth(p, steem, sbd, db.now, old(db.props).interestRate)]
    ensures db.median.Price? ==>
      ok == (a in old(db.purses) && steem <= old(db.purses)[a].rewardSteem && sbd <= old(db.purses)[a].rewardSbd && vests <= old(db.stakes)[a].rewardVests)
  {
    hide SumMap, Moved, MulDiv, ClaimedSteem, OrdersOk, OrdersLinked, EscrowsOk, EscrowsLinked, WithdrawalsOk,
      WithdrawalsLinked, ConversionsOk, ConversionsLinked;
    if a !in db.purses {
      return false;
    }
    var s := db.stakes[a];
    if db.purses[a].rewardSteem < steem || db.purses[a].rewardSbd < sbd || s.rewardVests < vests {
      return false;
    }
    ok := ClaimLiquid(db, a, steem, sbd);
    if ok {
      ClaimVests(db, a, vests);
    }
  }

  /** The liquid part: reward balances to spendable balances. */
  method ClaimLiquid(db: Database, a: Account, steem: int, sbd: int) returns (ok: bool)
    requires a in db.purses && Sound(db.median) && 0 <= steem <= db.purses[a].rewardSteem
    requires 0 <= sbd <= db.purses[a].rewardSbd
    modifies db`purses, db`props
    ensures ok ==> db.props == old(db.props).(sbdSupply := db.props.sbdSupply, virtualSupply := db.props.virtualSupply)
    ensures ok ==> PurseSteem(db.purses) == PurseSteem(old(db.purses))
    ensures ok ==> PurseSbd(db.purses) == PurseSbd(old(db.purses)) + db.props.sbdSupply - old(db.props).sbdSupply
    ensures ok && PursesOk(old(db.purses)) && 0 <= old(db.props).interestRate ==> PursesOk(db.purses)
    ensures db.purses.Keys == old(db.purses).Keys
    ensures ok ==> var p := old(db.purses)[a].(rewardSteem := old(db.purses)[a].rewardSteem - steem, rewardSbd := old(db.purses)[a].rewardSbd - sbd);
      db.purses == old(db.purses)[a := CreditedBoth(p, steem, sbd, db.now, old(db.props).interestRate)]
    ensures db.median.Price? ==> ok
  {
    hide SumMap, Moved, CreditedBoth;
    ok := db.AdjustReward(a, Asset(-steem, STEEM));
    ok := db.AdjustReward(a, Asset(-sbd, SBD));
    ok := db.AdjustBoth(a, steem, sbd);
  }

  /** The vesting part: pending shares and the STEEM behind them enter the vesting fund. */
  method ClaimVests(db: Database, a: Account, vests: int)
    requires a in db.stakes && StakesOk(db.stakes) && PropsOk(db.props) && 0 <= vests <= db.stakes[a].rewardVests
    requires db.props.vestingShares == StakeVests(db.stakes)
    modifies db`stakes, db`props
    ensures StakesOk(db.stakes) && db.stakes.Keys == old(db.stakes).Keys
    ensures PropsOk(db.props) <==> ClaimBacked(old(db.props), old(db.stakes)[a], vests)
    ensures var s, p, moved := old(db.stakes)[a], old(db.props), ClaimedSteem(old(db.stakes)[a], vests);
      && db.stakes == old(db.stakes)[a := Stake(s.vests + vests, s.rewardVests - vests, s.rewardVestSteem - moved)]
      && db.props == p.(vestingShares := p.vestingShares + vests, vestingFund := p.vestingFund + moved,
                        pendingShares := p.pendingShares - vests, pendingSteem := p.pendingSteem - moved)
      && StakeVests(db.stakes) == StakeVests(old(db.stakes)) + vests
      && StakeRewardVests(db.stakes) == StakeRewardVests(old(db.stakes)) - vests
      && StakeRewardSteem(db.stakes) == StakeRewardSteem(old(db.stakes)) - moved
  {
    hide SumMap, MulDiv, ClaimedSteem;
    var s, p := db.stakes[a], db.props;
    ClaimedSteemBounds(s, vests);
    StakeTotals(db.stakes);
    var moved := ClaimedSteem(s, vests);
    db.Restake(a, Stake(s.vests + vests, s.rewardVests - vests, s.rewardVestSteem - moved));
    db.props := p.(vestingShares := p.vestingShares + vests, vestingFund := p.vestingFund + moved,
                   pendingShares := p.pendingShares - vests, pendingSteem := p.pendingSteem - moved);
  }

  /** The one claim that leaves shares without STEEM: the first shares in circulation, rounded down to no STEEM. */
  method UnbackedClaimExample() returns (db: Database, ok: bool)
    ensures ok && db.Linked() && db.Balanced() && !db.Covered() && db.props.vestingShares == 1
    ensures db.props.vestingFund == 0
  {
    hide SumMap, OrdersOk, OrdersLinked, EscrowsOk, EscrowsLinked, WithdrawalsOk, WithdrawalsLinked, ConversionsOk,
      ConversionsLinked, PursesOk, GenesisPurses;
    db := new Database(0, 0, Fund(0, 0, 0, HUNDRED_PERCENT, 2500));
    db.Restake(INIT_MINER, Stake(0, 1000, 1));
    db.props := Props(1, 0, 1, 0, 0, 0, 1, 1000, 0, HUNDRED_PERCENT);
    db.median := Price(1, 1);
    assert db.Valid();
    PurseAt(db.purses, INIT_MINER);
    ok := ClaimRewards(db, INIT_MINER, 0, 0, 1);
  }

  /**
   The creator has paid, and the newcomer owns an empty purse and the shares the fee bought; nobody
   else is touched.
   */
  predicate Joined(purses: map<Account, Purse>, purses': map<Account, Purse>, stakes: map<Account, Stake>,
                   stakes': map<Account, Stake>,
                   creator: Account, a: Account, fee: int, shares: int)
  {
    && creator in purses
    && purses' == purses[creator := purses[creator].(steem := purses[creator].steem - fee)][a := EmptyPurse()]
    && stakes' == stakes[a := Stake(shares, 0, 0)]
  }

  lemma EitherOrder<K, V>(m: map<K, V>, k: K, v: V, l: K, w: V)
    requires k != l
    ensures m[k := v][l := w] == m[l := w][k := v]
  {
  }

  /** account_create: the fee leaves the creator and becomes the new account's stake. */
  method CreateAccount(db: Database, creator: Account, a: Account, fee: int, minimum: int) returns (ok: bool)
    requires db.Valid() && 0 <= fee
    modifies db`accounts, db`purses, db`stakes, db`props
    ensures ok ==> db.Valid()
    ensures ok == (creator in old(db.purses) && fee <= old(db.purses)[creator].steem && minimum <= fee && a !in old(db.accounts))
    ensures ok ==> db.accounts == old(db.accounts) + {a}
    ensures ok ==>
      Joined(old(db.purses), db.purses, old(db.stakes), db.stakes, creator, a, fee, SharesFor(fee, old(db.props)))
  {
    hide SumMap, MulDiv, SharesFor, OrdersOk, OrdersLinked, EscrowsOk, EscrowsLinked, WithdrawalsOk, WithdrawalsLinked,
      ConversionsOk, ConversionsLinked, PursesOk, StakesOk, PropsOk;
    if creator in db.purses {
      PurseAt(db.purses, creator);
    }
    if creator !in db.purses || db.purses[creator].steem < fee || fee < minimum || a in db.accounts {
      return false;
    }
    StakeTotals(db.stakes);
    SharesForNonNegative(fee, db.props);
    db.CreateAccount(a);
    var p := db.purses[creator];
    db.Refill(creator, p.(steem := p.steem - fee));
    EitherOrder(old(db.purses), creator, p.(steem := p.steem - fee), a, EmptyPurse());
    ok := true;
    if fee > 0 {
      var shares;
      ok, shares := db.CreateVesting(a, fee, false);
    }
  }

  // ----- burning -----

  /** A purse whose liquid, saved and reward balances have all been taken away, interest excepted. */
  ghost predicate Drained(was: Purse, p: Purse, now: int, rate: int)
  {
    && p.steem == 0 && p.savings == 0 && p.rewardSteem == 0 && p.rewardSbd == 0
    && p.sbd == Emptied(was.sbd, now, rate) && p.savingsSbd == Emptied(was.savingsSbd, now, rate)
  }

  /**
   The balances clear_null_account_balance takes from a purse. Interest paid by the movement itself
   stays behind and is burned with the next block.
   */
  method BurnPurse(db: Database, a: Account) returns (ok: bool, steem: int, sbd: int)
    requires a in db.purses && PursesOk(db.purses) && Sound(db.median) && 0 <= db.props.interestRate
    modifies db`purses, db`props
    ensures ok ==> var p := old(db.purses)[a]; steem == SteemOf(p) && sbd == SbdOf(p) && 0 <= steem && 0 <= sbd
    ensures ok ==> db.props == old(db.props).(sbdSupply := db.props.sbdSupply, virtualSupply := db.props.virtualSupply)
    ensures ok ==>
      && old(db.props).virtualSupply <= db.props.virtualSupply
      && (sbd == 0 ==> db.props.sbdSupply == old(db.props).sbdSupply)
    ensures ok ==> PurseSteem(db.purses) == PurseSteem(old(db.purses)) - steem
    ensures ok ==> PurseSbd(db.purses) == PurseSbd(old(db.purses)) - sbd + db.props.sbdSupply - old(db.props).sbdSupply
    ensures ok ==>
      && PursesOk(db.purses) && db.purses.Keys == old(db.purses).Keys
      && Drained(old(db.purses)[a], db.purses[a], db.now, old(db.props).interestRate)
    ensures ok ==> forall b :: b in db.purses && b != a ==> db.purses[b] == old(db.purses)[b]
    ensures db.median.Price? ==> ok
  {
    hide SumMap, Moved, InterestDue, Interest;
    assert PurseOk(db.purses[a]);
    steem := BurnSteem(db, a);
    ok, sbd := BurnSbd(db, a);
    if ok {
      var rewardSteem, rewardSbd := BurnRewards(db, a);
      steem, sbd := steem + rewardSteem, sbd + rewardSbd;
    }
  }

  method BurnSteem(db: Database, a: Account) returns (steem: int)
    requires a in db.purses && PurseOk(db.purses[a]) && Sound(db.median)
    modifies db`purses, db`props
    ensures var p := old(db.purses)[a]; steem == p.steem + p.savings && db.purses == old(db.purses)[a := p.(steem := 0, savings := 0)]
    ensures db.props == old(db.props)
    ensures PurseSteem(db.purses) == PurseSteem(old(db.purses)) - steem && PurseSbd(db.purses) == PurseSbd(old(db.purses))
  {
    hide SumMap;
    steem := 0;
    var ok;
    if 0 < db.purses[a].steem {
      steem := steem + db.purses[a].steem;
      ok := db.AdjustBalance(a, Asset(-db.purses[a].steem, STEEM));
    }
    if 0 < db.purses[a].savings {
      steem := steem + db.purses[a].savings;
      ok := db.AdjustSavings(a, Asset(-db.purses[a].savings, STEEM));
    }
  }

  function Emptied(h: Holding, now: int, rate: int): Holding
  {
    if 0 < h.balance then Moved(h, -h.balance, now, rate) else h
  }

  method BurnSbd(db: Database, a: Account) returns (ok: bool, sbd: int)
    requires a in db.purses && PursesOk(db.purses) && Sound(db.median) && 0 <= db.props.interestRate
    modifies db`purses, db`props
    ensures ok ==> var p, rate := old(db.purses)[a], old(db.props).interestRate;
      && sbd == p.sbd.balance + p.savingsSbd.balance
      && db.purses == old(db.purses)[a := p.(sbd := Emptied(p.sbd, db.now, rate), savingsSbd := Emptied(p.savingsSbd, db.now, rate))]
    ensures ok ==> db.props == old(db.props).(sbdSupply := db.props.sbdSupply, virtualSupply := db.props.virtualSupply)
    ensures ok ==>
      && old(db.props).virtualSupply <= db.props.virtualSupply
      && (sbd == 0 ==> db.props.sbdSupply == old(db.props).sbdSupply)
    ensures ok ==> PurseSteem(db.purses) == PurseSteem(old(db.purses))
    ensures ok ==> PurseSbd(db.purses) == PurseSbd(old(db.purses)) - sbd + db.props.sbdSupply - old(db.props).sbdSupply
    ensures ok ==> PursesOk(db.purses) && db.purses.Keys == old(db.purses).Keys
    ensures db.median.Price? ==> ok
  {
    hide SumMap, Moved, InterestDue, Interest;
    ok, sbd := true, 0;
    assert PurseOk(db.purses[a]);
    if 0 < db.purses[a].sbd.balance {
      sbd := sbd + db.purses[a].sbd.balance;
      ok := db.AdjustBalance(a, Asset(-db.purses[a].sbd.balance, SBD));
    }
    if ok && 0 < db.purses[a].savingsSbd.balance {
      sbd := sbd + db.purses[a].savingsSbd.balance;
      ok := db.AdjustSavings(a, Asset(-db.purses[a].savingsSbd.balance, SBD));
    }
  }

  method BurnRewards(db: Database, a: Account) returns (steem: int, sbd: int)
    requires a in db.purses && PurseOk(db.purses[a])
    modifies db`purses
    ensures var p := old(db.purses)[a];
      && steem == p.rewardSteem && sbd == p.rewardSbd
      && db.purses == old(db.purses)[a := p.(rewardSteem := 0, rewardSbd := 0)]
    ensures PurseSteem(db.purses) == PurseSteem(old(db.purses)) - steem && PurseSbd(db.purses) == PurseSbd(old(db.purses)) - sbd
  {
    hide SumMap;
    steem, sbd := 0, 0;
    var ok;
    if 0 < db.purses[a].rewardSteem {
      steem := db.purses[a].rewardSteem;
      ok := db.AdjustReward(a, Asset(-steem, STEEM));
    }
    if 0 < db.purses[a].rewardSbd {
      sbd := db.purses[a].rewardSbd;
      ok := db.AdjustReward(a, Asset(-sbd, SBD));
    }
  }

  /** The shares and pending shares of an account turned back into the STEEM behind them. */
  method BurnStake(db: Database, a: Account) returns (steem: int)
    requires a in db.stakes && StakesOk(db.stakes) && PropsOk(db.props)
    requires db.props.vestingShares == StakeVests(db.stakes)
    modifies db`stakes, db`props
    ensures StakesOk(db.stakes) && PropsOk(db.props) && db.stakes.Keys == old(db.stakes).Keys && 0 <= steem
    ensures var s, p := old(db.stakes)[a], old(db.props);
      && db.stakes == old(db.stakes)[a := Stake(0, 0, if 0 < s.rewardVests then 0 else s.rewardVestSteem)]
      && steem == p.vestingFund - db.props.vestingFund + p.pendingSteem - db.props.pendingSteem
      && db.props == p.(vestingShares := p.vestingShares - s.vests, vestingFund := db.props.vestingFund,
                        pendingShares := p.pendingShares - s.rewardVests, pendingSteem := db.props.pendingSteem)
      && p.vestingFund - db.props.vestingFund == Vested(s, p) && p.pendingSteem - db.props.pendingSteem == Pledged(s)
    ensures StakeVests(db.stakes) - db.props.vestingShares == StakeVests(old(db.stakes)) - old(db.props).vestingShares
    ensures StakeRewardVests(db.stakes) - db.props.pendingShares == StakeRewardVests(old(db.stakes)) - old(db.props).pendingShares
    ensures StakeRewardSteem(db.stakes) - db.props.pendingSteem == StakeRewardSteem(old(db.stakes)) - old(db.props).pendingSteem
  {
    hide SumMap, SteemFor;
    var s, p := db.stakes[a], db.props;
    OneStakeWithinTotal(db.stakes, a);
    steem := 0;
    if 0 < s.vests {
      SteemForCovered(s.vests, p);
      steem := SteemFor(s.vests, p);
      db.props := p.(vestingShares := p.vestingShares - s.vests, vestingFund := p.vestingFund - steem);
      db.Restake(a, s.(vests := 0));
    }
    if 0 < s.rewardVests {
      steem := steem + s.rewardVestSteem;
      db.props := db.props.(pendingShares := p.pendingShares - s.rewardVests,
                            pendingSteem := p.pendingSteem - s.rewardVestSteem);
      db.Restake(a, Stake(0, 0, 0));
    }
    assert StakeOk(s);
  }

  /** The STEEM behind an account's shares, and that behind its pending ones. */
  function Vested(s: Stake, p: Props): int
  {
    if 0 < s.vests then SteemFor(s.vests, p) else 0
  }

  function Pledged(s: Stake): int
  {
    if 0 < s.rewardVests then s.rewardVestSteem else 0
  }

  lemma VestedAlike(s: Stake, p: Props, q: Props)
    requires q.vestingFund == p.vestingFund && q.vestingShares == p.vestingShares
    ensures Vested(s, q) == Vested(s, p)
  {
  }

  /** What burning an account does to the supplies and the vesting pool. */
  ghost predicate Burned(was: Props, now: Props, p: Purse, s: Stake)
  {
    && now == was.(currentSupply := was.currentSupply - SteemOf(p) - Vested(s, was) - Pledged(s), sbdSupply := now.sbdSupply, virtualSupply := now.virtualSupply,
                   vestingFund := was.vestingFund - Vested(s, was), vestingShares := was.vestingShares - s.vests,
                   pendingSteem := was.pendingSteem - Pledged(s), pendingShares := was.pendingShares - s.rewardVests)
    && (SbdOf(p) == 0 ==> now.sbdSupply == was.sbdSupply)
  }

  /** clear_null_account_balance: everything the null account holds leaves every supply counter with it. */
  method BurnNull(db: Database) returns (ok: bool)
    requires db.Valid() && NULL_ACCOUNT in db.accounts
    modifies db`purses, db`stakes, db`props
    ensures ok ==>
      && db.Valid() && NULL_ACCOUNT in db.purses && NULL_ACCOUNT in db.stakes
      && db.purses.Keys == db.stakes.Keys == old(db.stakes).Keys == old(db.purses).Keys
    ensures ok ==>
      && Drained(old(db.purses)[NULL_ACCOUNT], db.purses[NULL_ACCOUNT], db.now, old(db.props).interestRate)
      && db.stakes[NULL_ACCOUNT].vests == 0 && db.stakes[NULL_ACCOUNT].rewardVests == 0
    ensures ok ==> forall b :: b in db.purses && b != NULL_ACCOUNT ==> db.purses[b] == old(db.purses)[b] && db.stakes[b] == old(db.stakes)[b]
    ensures ok ==>
      && db.stakes[NULL_ACCOUNT] == Stake(0, 0, if 0 < old(db.stakes)[NULL_ACCOUNT].rewardVests then 0 else old(db.stakes)[NULL_ACCOUNT].rewardVestSteem)
      && Burned(old(db.props), db.props, old(db.purses)[NULL_ACCOUNT], old(db.stakes)[NULL_ACCOUNT])
    ensures ok && 0 <= FundTotal(db.funds) && old(db.props).currentSupply <= old(db.props).virtualSupply ==>
      db.props.currentSupply <= db.props.virtualSupply
    ensures db.median.Price? ==> ok
  {
    hide SumMap, Moved, Vested, Drained, InterestDue, Interest, PursesOk, StakesOk, SteemOf, SbdOf, OrdersOk,
      OrdersLinked, EscrowsOk, EscrowsLinked, WithdrawalsOk, WithdrawalsLinked, ConversionsOk, ConversionsLinked;
    var steem, sbd;
    ok, steem, sbd := BurnPurse(db, NULL_ACCOUNT);
    if !ok {
      return;
    }
    VestedAlike(old(db.stakes)[NULL_ACCOUNT], old(db.props), db.props);
    var vested := BurnStake(db, NULL_ACCOUNT);
    ok := BurnSupply(db, steem + vested, sbd);
    if ok && 0 < sbd && 0 <= FundTotal(db.funds) {
      SuppliesNonNegative(db);
      WorthNonNegative(db.median, db.props.sbdSupply);
    }
  }

  lemma WorthNonNegative(median: Price, sbd: int)
    requires Sound(median) && median.Price? && 0 <= sbd
    ensures 0 <= ToSteem(median, sbd)
  {
    MulDivBounds(sbd, median.steem, median.sbd);
  }

  method BurnSupply(db: Database, steem: int, sbd: int) returns (ok: bool)
    requires Sound(db.median) && 0 <= steem && 0 <= sbd
    modifies db`props
    ensures ok == (sbd == 0 || db.median.Price?)
    ensures ok ==> db.props == old(db.props).(currentSupply := old(db.props).currentSupply - steem, sbdSupply := old(db.props).sbdSupply - sbd,
                                              virtualSupply := db.props.virtualSupply)
    ensures ok ==> db.props.virtualSupply == if sbd == 0 then old(db.props).virtualSupply - steem
                                             else db.props.currentSupply + ToSteem(db.median, db.props.sbdSupply)
  {
    ok := true;
    if 0 < steem {
      ok := db.AdjustSupply(Asset(-steem, STEEM));
    }
    if 0 < sbd {
      ok := db.AdjustSupply(Asset(-sbd, SBD));
    }
  }
}

/** Voting power and its delegation. */
module Governance {
  import opened Numbers
  import opened Totals

  type Key = nat

  /** The all-zero key, which stands for no delegate. */
  const NOBODY: Key := 0

  datatype GovernanceError = AccountMissing | SelfDelegation | DelegationExceedsPower | Overflow | Unauthorized

  /** `received` is power others delegate to this voter, `given` what the voter delegates to `delegate`. */
  datatype Voter = Voter(power: u64, received: u64, delegate: Key, given: u64)

  type Voters = map<Key, Voter>

  type Step = Result<Voters, GovernanceError>

  /** Own power less what is delegated away plus what was received. */
  function EffectivePower(v: Voter): Result<u64, GovernanceError> {
    if v.power < v.given then Err(Overflow) else
    :- Need(v.power - v.given + v.received <= U64_MAX, Overflow);
    Ok(v.power - v.given + v.received)
  }

  /** The administrator's snapshot overwrites the power alone, whatever is delegated out of it. */
  function SetVotingPower(m: Voters, isAdmin: bool, who: Key, power: u64): Step {
    if !isAdmin then Err(Unauthorized) else
    Ok(m[who := if who in m then m[who].(power := power) else Voter(power, 0, NOBODY, 0)])
  }

  /** The delegate's account with the delegator's previous delegation to it taken back. */
  function TakenBack(d: Voter, amount: u64): Result<Voter, GovernanceError> {
    if d.received < amount then Err(Overflow) else
    Ok(d.(received := d.received - amount))
  }

  function Delegate(m: Voters, who: Key, to: Key, amount: u64): Step {
    if who !in m || to !in m then Err(AccountMissing) else
    :- Need(who != to, SelfDelegation);
    var v, d := m[who], m[to];
    :- Need(v.given == 0 || v.delegate == to, DelegationExceedsPower);
    var d :- TakenBack(d, v.given);
    if amount == 0 then Ok(m[who := v.(delegate := NOBODY, given := 0)][to := d])
    else
      :- Need(amount <= v.power, DelegationExceedsPower);
      :- Need(d.received + amount <= U64_MAX, Overflow);
      Ok(m[who := v.(delegate := to, given := amount)][to := d.(received := d.received + amount)])
  }

  // ---------- The ledger ----------

  function PowerOf(v: Voter): int {
    v.power
  }

  function GivenOf(v: Voter): int {
    v.given
  }

  function ReceivedOf(v: Voter): int {
    v.received
  }

  /** What a voter gives to `d`. */
  function GivenTo(d: Key): Voter -> int {
    (v: Voter) => if v.delegate == d then v.given else 0
  }

  /** Every voter has received exactly what the others say they gave it, and delegates are registered. */
  ghost predicate Good(m: Voters) {
    && (forall d {:trigger Matches(m, d)} | d in m :: Matches(m, d))
    && (forall v {:trigger GivesToAnother(m, v)} | v in m :: GivesToAnother(m, v))
    && Total(m, ReceivedOf) == Total(m, GivenOf)
  }

  predicate GivesToAnother(m: Voters, v: Key)
    requires v in m
  {
    m[v].given > 0 ==> m[v].delegate in m && m[v].delegate != v
  }

  ghost predicate Matches(m: Voters, d: Key)
    requires d in m
  {
    m[d].received == Total(m, GivenTo(d))
  }

  /** How a sum changes when two accounts do. */
  lemma TwoPuts(m: Voters, a: Key, x: Voter, b: Key, y: Voter, f: Voter -> int)
    requires a in m && b in m && a != b
    ensures Total<Key, Voter>(m[a := x][b := y], f) == Total(m, f) - f(m[a]) - f(m[b]) + f(x) + f(y)
  {
    TotalPut<Key, Voter>(m, a, x, f);
    TotalPut<Key, Voter>(m[a := x], b, y, f);
  }

  /** The guarded subtraction is always covered. */
  lemma GivenIsReceived(m: Voters, who: Key)
    requires Good(m) && who in m && m[who].delegate in m
    ensures m[who].given <= m[m[who].delegate].received
  {
    TotalBoundsMember(m, who, GivenTo(m[who].delegate));
    assert Matches(m, m[who].delegate);
  }

  /** A delegation is refused for exactly these reasons; taking the previous one back never is. */
  lemma DelegateSucceedsExactlyWhen(m: Voters, who: Key, to: Key, amount: u64)
    requires Good(m)
    ensures Delegate(m, who, to, amount).Ok?
            <==> && who in m && to in m && who != to
                 && (m[who].given > 0 ==> m[who].delegate == to)
                 && (amount > 0 ==> amount <= m[who].power && m[to].received - m[who].given + amount <= U64_MAX)
  {
    if who in m && m[who].given > 0 && m[who].delegate == to && to in m {
      GivenIsReceived(m, who);
    }
  }

  lemma SetKeepsMatches(m: Voters, who: Key, v: Voter, d: Key)
    requires Good(m) && (d in m || d == who)
    requires if who in m then v == m[who].(power := v.power) else v.received == v.given == 0
    ensures Matches(m[who := v], d)
  {
    TotalPut<Key, Voter>(m, who, v, GivenTo(d));
    if d !in m {
      NobodyGives(m, d);
    } else {
      assert Matches(m, d);
    }
  }

  lemma SetKeepsGood(m: Voters, who: Key, v: Voter)
    requires Good(m)
    requires if who in m then v == m[who].(power := v.power) else v.received == v.given == 0
    ensures Good(m[who := v])
  {
    var m' := m[who := v];
    forall d | d in m'
      ensures Matches(m', d)
    {
      SetKeepsMatches(m, who, v, d);
    }
    forall g | g in m'
      ensures GivesToAnother(m', g)
    {
      assert g in m ==> GivesToAnother(m, g);
    }
    TotalPut<Key, Voter>(m, who, v, ReceivedOf);
    TotalPut<Key, Voter>(m, who, v, GivenOf);
  }

  /** A key that is not registered has been given nothing. */
  lemma NobodyGives(m: Voters, d: Key)
    requires Good(m) && d !in m
    ensures Total(m, GivenTo(d)) == 0
  {
    forall v | v in m
      ensures GivenTo(d)(m[v]) == 0
    {
      assert GivesToAnother(m, v);
    }
    TotalZero(m, GivenTo(d));
  }

  /** The ledger with `who` giving `amount` to `to`, replacing what it gave it before. */
  function Regiven(m: Voters, who: Key, to: Key, next: Key, amount: u64): Voters
    requires who in m && to in m && 0 <= m[to].received - m[who].given + amount <= U64_MAX
  {
    m[who := m[who].(delegate := next, given := amount)]
     [to := m[to].(received := m[to].received - m[who].given + amount)]
  }

  lemma RegivenMatches(m: Voters, who: Key, to: Key, next: Key, amount: u64, d: Key)
    requires Good(m) && who in m && to in m && who != to && 0 <= m[to].received - m[who].given + amount <= U64_MAX
    requires (m[who].given > 0 ==> m[who].delegate == to) && (amount > 0 ==> next == to) && d in m
    ensures Matches(Regiven(m, who, to, next, amount), d)
  {
    var m' := Regiven(m, who, to, next, amount);
    TwoPuts(m, who, m'[who], to, m'[to], GivenTo(d));
    assert Matches(m, d);
  }

  lemma RegivenIsGood(m: Voters, who: Key, to: Key, next: Key, amount: u64)
    requires Good(m) && who in m && to in m && who != to && 0 <= m[to].received - m[who].given + amount <= U64_MAX
    requires (m[who].given > 0 ==> m[who].delegate == to) && (amount > 0 ==> next == to)
    ensures Good(Regiven(m, who, to, next, amount))
  {
    var m' := Regiven(m, who, to, next, amount);
    forall d | d in m'
      ensures Matches(m', d)
    {
      RegivenMatches(m, who, to, next, amount, d);
    }
    forall g | g in m'
      ensures GivesToAnother(m', g)
    {
      assert GivesToAnother(m, g);
    }
    TwoPuts(m, who, m'[who], to, m'[to], ReceivedOf);
    TwoPuts(m, who, m'[who], to, m'[to], GivenOf);
  }

  lemma DelegateRegives(m: Voters, who: Key, to: Key, amount: u64)
    requires Delegate(m, who, to, amount).Ok?
    ensures m[to].received - m[who].given + amount <= U64_MAX
    ensures Delegate(m, who, to, amount).value == Regiven(m, who, to, if amount > 0 then to else NOBODY, amount)
  {
  }

  datatype Command = Set(isAdmin: bool, who: Key, power: u64) | DelegateTo(who: Key, to: Key, amount: u64)

  function Execute(m: Voters, c: Command): Step {
    match c
    case Set(isAdmin, who, power) => SetVotingPower(m, isAdmin, who, power)
    case DelegateTo(who, to, amount) => Delegate(m, who, to, amount)
  }

  function After(m: Voters, c: Command): Voters {
    if Execute(m, c).Ok? then Execute(m, c).value else m
  }

  function Run(cs: seq<Command>): Voters
    decreases |cs|
  {
    if cs == [] then map[] else After(Run(cs[..|cs| - 1]), cs[|cs| - 1])
  }

  lemma {:induction false} RunIsGood(cs: seq<Command>)
    ensures Good(Run(cs))
    decreases |cs|
  {
    if cs != [] {
      RunIsGood(cs[..|cs| - 1]);
      var m, c := Run(cs[..|cs| - 1]), cs[|cs| - 1];
      if Execute(m, c).Ok? {
        match c {
          case Set(_, who, _) => SetKeepsGood(m, who, After(m, c)[who]);
          case DelegateTo(who, to, amount) =>
            DelegateRegives(m, who, to, amount);
            RegivenIsGood(m, who, to, if amount > 0 then to else NOBODY, amount);
        }
      }
    }
  }

  // ---------- Effective power ----------

  function NetOf(v: Voter): int {
    v.power - v.given + v.received
  }

  /** What a voter can vote with: nothing, if computing it fails. */
  function VotesOf(v: Voter): int {
    if EffectivePower(v).Ok? then EffectivePower(v).value else 0
  }

  lemma {:induction false} NetSum(m: Voters)
    ensures Total(m, NetOf) == Total(m, PowerOf) - Total(m, GivenOf) + Total(m, ReceivedOf)
    decreases |m|
  {
    if m != map[] {
      var k :| k in m;
      TotalRemove(m, k, NetOf);
      TotalRemove(m, k, PowerOf);
      TotalRemove(m, k, GivenOf);
      TotalRemove(m, k, ReceivedOf);
      assert (m - {k}).Keys < m.Keys;
      NetSum(m - {k});
    }
  }

  lemma {:induction false} SameTotal(m: Voters, f: Voter -> int, g: Voter -> int)
    requires forall k | k in m :: f(m[k]) == g(m[k])
    ensures Total(m, f) == Total(m, g)
    decreases |m|
  {
    if m != map[] {
      var k :| k in m;
      TotalRemove(m, k, f);
      TotalRemove(m, k, g);
      assert (m - {k}).Keys < m.Keys;
      SameTotal(m - {k}, f, g);
    }
  }

  /** Every effective power can be computed. */
  ghost predicate AllCanVote(m: Voters) {
    forall v | v in m :: EffectivePower(m[v]).Ok?
  }

  /** Nobody gives more than it has. */
  ghost predicate NobodyOverdrawn(m: Voters) {
    forall v | v in m :: m[v].given <= m[v].power
  }

  /** Delegation neither creates nor destroys votes: in any reachable ledger where all can vote, their votes
      together are the total power; and if that is a 64-bit number, all can vote exactly when nobody is
      overdrawn. */
  lemma DelegationConservesVotes(cs: seq<Command>)
    ensures var m := Run(cs);
            && (AllCanVote(m) ==> Total(m, VotesOf) == Total(m, PowerOf))
            && (Total(m, PowerOf) <= U64_MAX ==> (AllCanVote(m) <==> NobodyOverdrawn(m)))
  {
    var m := Run(cs);
    RunIsGood(cs);
    NetSum(m);
    if AllCanVote(m) {
      SameTotal(m, VotesOf, NetOf);
    }
    if Total(m, PowerOf) <= U64_MAX && NobodyOverdrawn(m) {
      forall v | v in m
        ensures EffectivePower(m[v]).Ok?
      {
        TotalBoundsMember(m, v, NetOf);
      }
    }
  }

  /** Lowering a power below what was given out of it breaks this: the delegate keeps the votes. */
  lemma LoweredPowerStaysDelegated(a: Key, b: Key, n: u64)
    requires a != b && n > 0
    ensures var cs := [Set(true, a, n), Set(true, b, 0), DelegateTo(a, b, n), Set(true, a, 0)];
            var m := Run(cs);
            && m == map[a := Voter(0, 0, b, n), b := Voter(0, n, NOBODY, 0)]
            && EffectivePower(m[a]).Err? && EffectivePower(m[b]) == Ok(n)
  {
    var cs := [Set(true, a, n), Set(true, b, 0), DelegateTo(a, b, n), Set(true, a, 0)];
    assert cs[..3] == [cs[0], cs[1], cs[2]] && cs[..3][..2] == [cs[0], cs[1]];
    assert cs[..3][..2][..1] == [cs[0]] && cs[..3][..2][..1][..0] == [];
    assert Run([]) == map[];
    var m1 := Run([cs[0]]);
    assert m1 == map[a := Voter(n, 0, NOBODY, 0)];
    var m2 := Run([cs[0], cs[1]]);
    assert m2 == map[a := Voter(n, 0, NOBODY, 0), b := Voter(0, 0, NOBODY, 0)];
    var m3 := Run(cs[..3]);
    assert m3 == map[a := Voter(n, 0, b, n), b := Voter(0, n, NOBODY, 0)];
  }

  /** Delegating and taking it back restores the ledger. */
  lemma UndelegateRestores(m: Voters, who: Key, to: Key, amount: u64)
    requires Delegate(m, who, to, amount).Ok? && m[who].given == 0 && m[who].delegate == NOBODY
    ensures Delegate(Delegate(m, who, to, amount).value, who, to, 0) == Ok(m)
  {
    var m1 := Delegate(m, who, to, amount).value;
    var m2 := Delegate(m1, who, to, 0).value;
    assert m2 == m;
  }

  /** A second delegation to the same delegate replaces the first, as if that had never been. */
  lemma RedelegateReplaces(m: Voters, who: Key, to: Key, first: u64, second: u64)
    requires m.Keys >= {who} && m[who].given == 0
    requires Delegate(m, who, to, first).Ok? && second > 0
    ensures Delegate(Delegate(m, who, to, first).value, who, to, second) == Delegate(m, who, to, second)
  {
    var m1 := Delegate(m, who, to, first).value;
    if Delegate(m, who, to, second).Ok? {
      assert Delegate(m1, who, to, second).value == Delegate(m, who, to, second).value;
    }
  }

  // ---------- What each instruction does ----------

  /** A voter's own power and what it received are what it votes with and what it gave away. */
  lemma EffectivePowerBalances(v: Voter)
    ensures EffectivePower(v).Ok? <==> v.given <= v.power && v.power - v.given + v.received <= U64_MAX
    ensures EffectivePower(v).Ok? ==> EffectivePower(v).value + v.given == v.power + v.received
  {
  }

  /** The administrator alone sets a power, and nothing but that power. */
  lemma SetEffect(m: Voters, isAdmin: bool, who: Key, power: u64)
    ensures var r := SetVotingPower(m, isAdmin, who, power);
            && (r.Ok? <==> isAdmin)
            && (r.Ok? ==>
                  && who in r.value && r.value - {who} == m - {who} && r.value[who].power == power
                  && if who in m then r.value[who] == m[who].(power := power)
                     else r.value[who].received == r.value[who].given == r.value[who].delegate == 0)
  {
  }

  /** A delegation sets what a voter gives, and its delegate receives the difference to what it gave before; nobody
      else is concerned. */
  lemma DelegateEffect(m: Voters, who: Key, to: Key, amount: u64)
    requires Delegate(m, who, to, amount).Ok?
    ensures var m' := Delegate(m, who, to, amount).value;
            && m'.Keys == m.Keys && m' - {who, to} == m - {who, to}
            && m'[who] == m[who].(given := amount, delegate := if amount == 0 then 0 else to)
            && m'[to].received - m[to].received == amount - m[who].given
            && m'[to] == m[to].(received := m'[to].received)
            && NetOf(m'[who]) + NetOf(m'[to]) == NetOf(m[who]) + NetOf(m[to])
  {
  }

  /** A refusal names a cause that is there. */
  lemma GovernanceRefusalsAreTrue(m: Voters, who: Key, to: Key, amount: u64)
    ensures var r := Delegate(m, who, to, amount);
            && (r == Err(AccountMissing) <==> who !in m || to !in m)
            && (r == Err(SelfDelegation) <==> who in m && to in m && who == to)
            && (r == Err(DelegationExceedsPower) ==>
                  (m[who].given > 0 && m[who].delegate != to) || amount > m[who].power)
            && r != Err(Unauthorized)
  {
  }

  // ---------- The accounts, updated in place ----------

  function Verdict(step: Step): Outcome<GovernanceError> {
    if step.Ok? then Pass else Fail(step.error)
  }

  class Program {
    var voters: Voters

    constructor ()
      ensures voters == map[]
    {
      voters := map[];
    }

    method ProcessSetVotingPower(isAdmin: bool, who: Key, power: u64) returns (r: Outcome<GovernanceError>)
      requires Good(voters)
      modifies this
      ensures r == Verdict(SetVotingPower(old(voters), isAdmin, who, power))
      ensures voters == After(old(voters), Set(isAdmin, who, power)) && Good(voters)
    {
      if !isAdmin { return Fail(Unauthorized); }
      ghost var before := voters;
      if who !in voters {
        voters := voters[who := Voter(power, 0, NOBODY, 0)];
      } else {
        voters := voters[who := voters[who].(power := power)];
      }
      SetKeepsGood(before, who, voters[who]);
      r := Pass;
    }

    method ProcessDelegateVotingPower(who: Key, to: Key, amount: u64) returns (r: Outcome<GovernanceError>)
      requires Good(voters)
      modifies this
      ensures r == Verdict(Delegate(old(voters), who, to, amount))
      ensures voters == After(old(voters), DelegateTo(who, to, amount)) && Good(voters)
    {
      if who !in voters || to !in voters { return Fail(AccountMissing); }
      if who == to { return Fail(SelfDelegation); }
      var delegator, delegate := voters[who], voters[to];
      if delegator.given > 0 && delegator.delegate == to {
        GivenIsReceived(voters, who);
        delegate := delegate.(received := delegate.received - delegator.given);
        delegator := delegator.(given := 0);
      } else if delegator.given > 0 {
        return Fail(DelegationExceedsPower);
      }
      if amount == 0 {
        delegator := delegator.(delegate := NOBODY, given := 0);
      } else {
        if amount > delegator.power { return Fail(DelegationExceedsPower); }
        delegator := delegator.(delegate := to, given := amount);
        if delegate.received + amount > U64_MAX { return Fail(Overflow); }
        delegate := delegate.(received := delegate.received + amount);
      }
      DelegateRegives(voters, who, to, amount);
      RegivenIsGood(voters, who, to, if amount > 0 then to else NOBODY, amount);
      voters := voters[who := delegator][to := delegate];
      r := Pass;
    }
  }
}

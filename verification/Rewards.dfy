/** The nightly payout of the quiz pool: winners grouped by user, each winning attempt credited once. */
module Rewards {
  import opened Common
  import opened Payment
  import opened Sorting
  import PaymentService

  datatype Win = Win(userId: string, attemptId: string)

  function OfUser(wins: seq<Win>, user: string): seq<Win> {
    Filter(wins, (w: Win) => w.userId == user)
  }

  /** The winning users in order of first appearance: the key order of the map the code fills. */
  function Users(wins: seq<Win>): (users: seq<string>)
    ensures forall u :: u in users <==> exists w :: w in wins && w.userId == u
    ensures NoDuplicates(users)
  {
    if wins == [] then []
    else
      var init, last := wins[..|wins| - 1], wins[|wins| - 1];
      assert forall w :: w in wins <==> w in init || w == last;
      var users := Users(init);
      if last.userId in users then users else users + [last.userId]
  }

  /** The order in which the nested loops credit the attempts. */
  function PayList(wins: seq<Win>, users: seq<string>): seq<Win> {
    if users == [] then [] else OfUser(wins, users[0]) + PayList(wins, users[1..])
  }

  function WithoutUser(wins: seq<Win>, user: string): seq<Win> {
    Filter(wins, (w: Win) => w.userId != user)
  }

  lemma {:induction false} SplitUser(wins: seq<Win>, user: string)
    ensures multiset(wins) == multiset(OfUser(wins, user)) + multiset(WithoutUser(wins, user))
  {
    if wins != [] {
      assert wins == [wins[0]] + wins[1..];
      SplitUser(wins[1..], user);
    }
  }

  lemma {:induction false} OfUserWithout(wins: seq<Win>, user: string, other: string)
    requires user != other
    ensures OfUser(WithoutUser(wins, other), user) == OfUser(wins, user)
  {
    if wins != [] {
      OfUserWithout(wins[1..], user, other);
      var rest := WithoutUser(wins[1..], other);
      assert ([wins[0]] + rest)[1..] == rest;
    }
  }

  lemma {:induction false} PayListWithout(wins: seq<Win>, users: seq<string>, other: string)
    requires other !in users
    ensures PayList(WithoutUser(wins, other), users) == PayList(wins, users)
  {
    if users != [] {
      OfUserWithout(wins, users[0], other);
      PayListWithout(wins, users[1..], other);
    }
  }

  /** Grouping by user partitions the attempts: each is paid exactly once. */
  lemma {:induction false} PayListIsPermutation(wins: seq<Win>, users: seq<string>)
    requires NoDuplicates(users) && forall w :: w in wins ==> w.userId in users
    ensures multiset(PayList(wins, users)) == multiset(wins)
    decreases |users|
  {
    if users == [] {
      SomeElement(wins);
    } else {
      var user, rest := users[0], WithoutUser(wins, users[0]);
      SplitUser(wins, user);
      PayListIsPermutation(rest, users[1..]);
      PayListWithout(wins, users[1..], user);
    }
  }

  lemma SomeElement(wins: seq<Win>)
    ensures wins != [] ==> exists w :: w in wins
  {
    if wins != [] {
      assert wins[0] in wins;
    }
  }

  // The order of the credits

  lemma {:induction false} OfUserAppend(wins: seq<Win>, win: Win, user: string)
    ensures OfUser(wins + [win], user) == OfUser(wins, user) + if win.userId == user then [win] else []
  {
    if wins != [] {
      assert (wins + [win])[1..] == wins[1..] + [win];
      OfUserAppend(wins[1..], win, user);
    }
  }

  lemma {:induction false} OfUserConcat(a: seq<Win>, b: seq<Win>, user: string)
    ensures OfUser(a + b, user) == OfUser(a, user) + OfUser(b, user)
  {
    if a == [] {
      assert a + b == b;
    } else {
      assert (a + b)[1..] == a[1..] + b;
      OfUserConcat(a[1..], b, user);
    }
  }

  lemma {:induction false} OfUserOfUser(wins: seq<Win>, user: string, other: string)
    ensures OfUser(OfUser(wins, other), user) == if user == other then OfUser(wins, user) else []
  {
    if wins != [] {
      OfUserOfUser(wins[1..], user, other);
      var rest := OfUser(wins[1..], other);
      assert ([wins[0]] + rest)[1..] == rest;
    }
  }

  lemma {:induction false} PayListOfUser(wins: seq<Win>, users: seq<string>, user: string)
    requires NoDuplicates(users)
    ensures OfUser(PayList(wins, users), user) == if user in users then OfUser(wins, user) else []
  {
    if users != [] {
      OfUserConcat(OfUser(wins, users[0]), PayList(wins, users[1..]), user);
      OfUserOfUser(wins, user, users[0]);
      PayListOfUser(wins, users[1..], user);
    }
  }

  /** The place of the user's first winning attempt. */
  function FirstWin(wins: seq<Win>, user: string): (i: nat)
    ensures i <= |wins| && (i < |wins| ==> wins[i].userId == user)
    ensures forall j :: 0 <= j < i ==> wins[j].userId != user
  {
    if wins == [] || wins[0].userId == user then 0 else 1 + FirstWin(wins[1..], user)
  }

  lemma FirstWinIs(wins: seq<Win>, user: string, i: nat)
    requires i <= |wins| && (i < |wins| ==> wins[i].userId == user)
    requires forall j :: 0 <= j < i ==> wins[j].userId != user
    ensures FirstWin(wins, user) == i
  {}

  /** Users come in the order of their first winning attempts. */
  lemma {:induction false} UsersInOrder(wins: seq<Win>, i: nat, j: nat)
    requires i < j < |Users(wins)|
    ensures FirstWin(wins, Users(wins)[i]) < FirstWin(wins, Users(wins)[j]) < |wins|
  {
    hide FirstWin;
    var init, last := wins[..|wins| - 1], wins[|wins| - 1];
    var users := Users(init);
    forall u | u in users
      ensures FirstWin(wins, u) == FirstWin(init, u) < |init|
    {
      var w :| w in init && w.userId == u;
      FirstWinIs(wins, u, FirstWin(init, u));
    }
    if j < |users| {
      UsersInOrder(init, i, j);
    } else {
      FirstWinIs(wins, last.userId, |init|);
    }
  }

  lemma {:induction false} GroupsInOrder(wins: seq<Win>, users: seq<string>, key: Win -> int)
    requires forall w :: key(w) == FirstWin(wins, w.userId)
    requires forall i, j :: 0 <= i < j < |users| ==> FirstWin(wins, users[i]) < FirstWin(wins, users[j])
    ensures SortedBy(PayList(wins, users), key)
    ensures forall w :: w in PayList(wins, users) ==> w.userId in users
  {
    if users != [] {
      GroupsInOrder(wins, users[1..], key);
      var first, rest := OfUser(wins, users[0]), PayList(wins, users[1..]);
      assert forall w :: w in first ==> w.userId == users[0];
      forall i, j | 0 <= i < j < |first + rest|
        ensures key((first + rest)[i]) <= key((first + rest)[j])
      {
        if i < |first| <= j {
          assert first[i] in first && rest[j - |first|] in rest;
        } else if j < |first| {
          assert first[i] in first && first[j] in first;
        }
      }
    }
  }

  /** The attempts are credited user by user, in the order in which the users first won, and each user's in the order
      in which they were won. */
  lemma PayListOrder(wins: seq<Win>)
    ensures SortedBy(PayList(wins, Users(wins)), (w: Win) => FirstWin(wins, w.userId))
    ensures forall user :: OfUser(PayList(wins, Users(wins)), user) == OfUser(wins, user)
  {
    var users := Users(wins);
    forall i, j | 0 <= i < j < |users|
      ensures FirstWin(wins, users[i]) < FirstWin(wins, users[j])
    {
      UsersInOrder(wins, i, j);
    }
    GroupsInOrder(wins, users, (w: Win) => FirstWin(wins, w.userId));
    forall user
      ensures OfUser(PayList(wins, users), user) == OfUser(wins, user)
    {
      PayListOfUser(wins, users, user);
      if user !in users {
        OfNobody(wins, user);
      }
    }
  }

  /** What each winning attempt is worth: its user's share of the pool, split over the user's attempts. */
  function PerAttempt(pool: real, count: nat, total: nat): (r: real)
    requires 0 < count && 0 < total
    ensures r == pool / total as real
  {
    ShareOfAttempt(pool, count as real, total as real);
    pool * (count as real / total as real) / count as real
  }

  lemma ShareOfAttempt(pool: real, count: real, total: real)
    requires 0.0 < count && 0.0 < total
    ensures pool * (count / total) / count == pool / total
  {}

  function RewardText(title: string): string {
    "Winning reward for " + title
  }

  /** The effect of crediting the attempts of `list` one after the other. */
  function PayOut(s: Store, list: seq<Win>, amount: real, text: string): (r: Store)
    requires WalletsExist(s)
    ensures WalletsExist(r) && r.walletOf == s.walletOf
  {
    if list == [] then s
    else
      var last := list[|list| - 1];
      CreditStep(PayOut(s, list[..|list| - 1], amount, text), last.userId, amount, QUIZ_REWARD, text,
                 Some(last.attemptId))
  }

  predicate HasWallet(s: Store, win: Win) {
    win.userId in s.walletOf
  }

  /** How far one job attempt that dies after `crash` credits gets down the list: a user without a wallet
      stops it for good. */
  function Reach(s: Store, list: seq<Win>, crash: nat): (n: nat)
    ensures n <= crash && n <= |list|
    ensures forall i :: 0 <= i < n ==> HasWallet(s, list[i])
    ensures n < crash && n < |list| ==> !HasWallet(s, list[n])
  {
    if crash == 0 || list == [] || !HasWallet(s, list[0]) then 0 else 1 + Reach(s, list[1..], crash - 1)
  }

  /** The ledger row of one credit. */
  function CreditRow(s: Store, win: Win, amount: real, text: string): HistoryRow
    requires WalletsExist(s) && HasWallet(s, win)
  {
    var w := s.walletOf[win.userId];
    HistoryRow(w, amount, s.balances[w], s.balances[w] + amount, QUIZ_REWARD, text, Some(win.attemptId))
  }

  /** Whether `row` is the reward of attempt `win`. */
  predicate IsReward(s: Store, row: HistoryRow, win: Win, amount: real, text: string)
    requires HasWallet(s, win)
  {
    && row.walletId == s.walletOf[win.userId] && row.amount == amount && row.kind == QUIZ_REWARD
    && row.description == text && row.quizAttemptId == Some(win.attemptId)
  }

  /** One ledger row per paid attempt, in order, and nothing else. */
  lemma {:induction false} PayOutRows(s: Store, list: seq<Win>, amount: real, text: string)
    requires WalletsExist(s) && forall w :: w in list ==> HasWallet(s, w)
    ensures
      var h := PayOut(s, list, amount, text).history;
      && |h| == |s.history| + |list| && h[..|s.history|] == s.history
      && forall k :: 0 <= k < |list| ==> IsReward(s, h[|s.history| + k], list[k], amount, text)
  {
    if list != [] {
      var init, last := list[..|list| - 1], list[|list| - 1];
      assert HasWallet(s, last);
      PayOutRows(s, init, amount, text);
      var mid := PayOut(s, init, amount, text);
      var row := CreditRow(mid, last, amount, text);
      assert PayOut(s, list, amount, text).history == mid.history + [row];
      assert IsReward(s, row, last, amount, text);
    }
  }

  function Times(n: nat, amount: real): real {
    n as real * amount
  }

  lemma TimesAdds(m: nat, n: nat, amount: real)
    ensures Times(m + n, amount) == Times(m, amount) + Times(n, amount)
    ensures Times(0, amount) == 0.0 && Times(1, amount) == amount
  {}

  lemma TimesMonotonic(m: nat, n: nat, amount: real)
    requires m <= n && 0.0 <= amount
    ensures Times(m, amount) <= Times(n, amount)
  {}

  lemma TimesShare(n: nat, pool: real)
    requires 0 < n
    ensures Times(n, pool / n as real) == pool
  {}

  /** The payout as steps of the payment system. */
  function CreditsOf(list: seq<Win>, amount: real, text: string): (steps: seq<Step>)
    ensures |steps| == |list|
  {
    seq(|list|, i requires 0 <= i < |list| =>
      Credit(list[i].userId, amount, QUIZ_REWARD, text, Some(list[i].attemptId)))
  }

  lemma {:induction false} RunAppend(s: Store, steps: seq<Step>, step: Step)
    requires WellFormed(s) && IsRun(s, steps) && Enabled(Run(s, steps), step)
    ensures IsRun(s, steps + [step]) && Run(s, steps + [step]) == Apply(Run(s, steps), step)
    decreases |steps|
  {
    hide Apply, Enabled;
    if steps == [] {
      assert [step][1..] == [];
    } else {
      assert (steps + [step])[1..] == steps[1..] + [step];
      RunAppend(Apply(s, steps[0]), steps[1..], step);
    }
  }

  /** So whatever holds of runs of the payment system, the ledger included, holds through payouts. */
  lemma {:induction false} PayOutIsRun(s: Store, list: seq<Win>, amount: real, text: string)
    requires WellFormed(s)
    ensures IsRun(s, CreditsOf(list, amount, text))
    ensures Run(s, CreditsOf(list, amount, text)) == PayOut(s, list, amount, text)
  {
    if list != [] {
      var init, last := list[..|list| - 1], list[|list| - 1];
      var step := Credit(last.userId, amount, QUIZ_REWARD, text, Some(last.attemptId));
      assert CreditsOf(list, amount, text) == CreditsOf(init, amount, text) + [step];
      PayOutIsRun(s, init, amount, text);
      RunAppend(s, CreditsOf(init, amount, text), step);
    }
  }

  /** The sum of the balances of the wallets `ids`. */
  function Total(balances: map<string, real>, ids: seq<string>): real
    requires forall id :: id in ids ==> id in balances
  {
    if ids == [] then 0.0 else balances[ids[0]] + Total(balances, ids[1..])
  }

  /** `ids` lists every wallet once. */
  ghost predicate Enumerates(ids: seq<string>, s: Store) {
    NoDuplicates(ids) && forall w :: w in ids <==> w in s.balances
  }

  lemma {:induction false} TotalAfterCredit(balances: map<string, real>, ids: seq<string>, w: string, amount: real)
    requires NoDuplicates(ids) && w in balances && forall id :: id in ids ==> id in balances
    ensures Total(balances[w := balances[w] + amount], ids)
         == Total(balances, ids) + if w in ids then amount else 0.0
  {
    if ids != [] {
      TotalAfterCredit(balances, ids[1..], w, amount);
      assert w in ids <==> w == ids[0] || w in ids[1..];
    }
  }

  lemma {:induction false} PayOutTotal(s: Store, list: seq<Win>, amount: real, text: string, ids: seq<string>)
    requires WalletsExist(s) && Enumerates(ids, s) && forall w :: w in list ==> HasWallet(s, w)
    ensures
      var r := PayOut(s, list, amount, text);
      Enumerates(ids, r) && Total(r.balances, ids) == Total(s.balances, ids) + Times(|list|, amount)
  {
    hide Times;
    TimesAdds(0, 0, amount);
    if list != [] {
      var init, last := list[..|list| - 1], list[|list| - 1];
      assert HasWallet(s, last);
      TimesAdds(|init|, 1, amount);
      PayOutTotal(s, init, amount, text, ids);
      var mid := PayOut(s, init, amount, text);
      TotalAfterCredit(mid.balances, ids, mid.walletOf[last.userId], amount);
    }
  }

  /** A complete payout of a positive number of winning attempts credits each of them once, and wallets gain
      exactly the pool together. */
  lemma CompletePayoutIsThePool(s: Store, wins: seq<Win>, pool: real, title: string, ids: seq<string>)
    requires WalletsExist(s) && Enumerates(ids, s) && wins != [] && forall w :: w in wins ==> HasWallet(s, w)
    ensures
      var list, amount := PayList(wins, Users(wins)), pool / |wins| as real;
      var r := PayOut(s, list, amount, RewardText(title));
      && multiset(list) == multiset(wins) && Reach(s, list, |list|) == |list| == |wins|
      && |r.history| == |s.history| + |list| && r.history[..|s.history|] == s.history
      && (forall w :: w in list ==> HasWallet(s, w))
      && (forall k :: 0 <= k < |list| ==>
            IsReward(s, r.history[|s.history| + k], list[k], amount, "Winning reward for " + title))
      && Enumerates(ids, r) && Total(r.balances, ids) == Total(s.balances, ids) + pool
  {
    hide Times, PayOut, PayList, Users, Total, NoDuplicates;
    var list, amount := PayList(wins, Users(wins)), pool / |wins| as real;
    assert forall w :: w in wins ==> w.userId in Users(wins);
    PayListIsPermutation(wins, Users(wins));
    SameElements(list, wins);
    TimesShare(|wins|, pool);
    PayOutRows(s, list, amount, RewardText(title));
    PayOutTotal(s, list, amount, RewardText(title), ids);
  }

  lemma SameElements(a: seq<Win>, b: seq<Win>)
    requires multiset(a) == multiset(b)
    ensures |a| == |b| && forall w :: w in a ==> w in b
  {
    assert |multiset(a)| == |a| && |multiset(b)| == |b|;
    assert forall w :: w in a ==> w in multiset(a);
  }

  /** Job attempts one after another, each starting again at the head of the list; the i-th dies after
      `crashes[i]` credits unless it ends before. */
  function Attempts(s: Store, list: seq<Win>, amount: real, text: string, crashes: seq<nat>): (r: Store)
    requires WalletsExist(s)
    ensures WalletsExist(r) && r.walletOf == s.walletOf
  {
    if crashes == [] then s
    else
      var mid := Attempts(s, list, amount, text, crashes[..|crashes| - 1]);
      PayOut(mid, list[..Reach(mid, list, crashes[|crashes| - 1])], amount, text)
  }

  /** How many credits those attempts make. */
  function CreditsMade(s: Store, list: seq<Win>, crashes: seq<nat>): nat {
    if crashes == [] then 0
    else
      var init, last := crashes[..|crashes| - 1], crashes[|crashes| - 1];
      CreditsMade(s, list, init) + Reach(s, list, last)
  }

  /** The contract of `Reach` determines it. */
  lemma ReachIs(s: Store, list: seq<Win>, crash: nat, n: nat)
    requires n <= crash && n <= |list| && forall i :: 0 <= i < n ==> HasWallet(s, list[i])
    requires n < crash && n < |list| ==> !HasWallet(s, list[n])
    ensures Reach(s, list, crash) == n
  {}

  lemma ReachDependsOnWallets(s: Store, r: Store, list: seq<Win>, crash: nat)
    requires r.walletOf == s.walletOf
    ensures Reach(r, list, crash) == Reach(s, list, crash)
  {}

  /** Nothing remembers what an earlier attempt paid: the wallets gain the same amount for every credit of
      every attempt. */
  lemma {:induction false} AttemptsTotal(
    s: Store, list: seq<Win>, amount: real, text: string, crashes: seq<nat>, ids: seq<string>)
    requires WalletsExist(s) && Enumerates(ids, s)
    ensures
      var r := Attempts(s, list, amount, text, crashes);
      && Enumerates(ids, r)
      && Total(r.balances, ids) == Total(s.balances, ids) + Times(CreditsMade(s, list, crashes), amount)
  {
    hide Times, PayOut, Total, Reach;
    TimesAdds(0, 0, amount);
    if crashes != [] {
      var init, last := crashes[..|crashes| - 1], crashes[|crashes| - 1];
      TimesAdds(CreditsMade(s, list, init), Reach(s, list, last), amount);
      AttemptsTotal(s, list, amount, text, init, ids);
      var mid := Attempts(s, list, amount, text, init);
      ReachDependsOnWallets(s, mid, list, last);
      PayOutTotal(mid, list[..Reach(mid, list, last)], amount, text, ids);
    }
  }

  /** However they are cut, r attempts pay at most r pools. */
  lemma AttemptsPayAtMost(s: Store, wins: seq<Win>, pool: real, title: string, crashes: seq<nat>, ids: seq<string>)
    requires WalletsExist(s) && Enumerates(ids, s) && wins != [] && 0.0 <= pool
    ensures
      var r := Attempts(s, PayList(wins, Users(wins)), pool / |wins| as real, RewardText(title), crashes);
      Enumerates(ids, r) && Total(r.balances, ids) <= Total(s.balances, ids) + Times(|crashes|, pool)
  {
    hide Times, PayOut, PayList, Users, RewardText, Total, NoDuplicates, Attempts, CreditsMade;
    assert forall w :: w in wins ==> w.userId in Users(wins);
    var list, amount := PayList(wins, Users(wins)), pool / |wins| as real;
    PayListIsPermutation(wins, Users(wins));
    SameElements(list, wins);
    AttemptsTotal(s, list, amount, RewardText(title), crashes, ids);
    TimesShare(|wins|, pool);
    CreditsAreWithin(s, list, crashes, amount);
  }

  lemma {:induction false} CreditsAreWithin(s: Store, list: seq<Win>, crashes: seq<nat>, amount: real)
    requires 0.0 <= amount
    ensures Times(CreditsMade(s, list, crashes), amount) <= Times(|crashes|, Times(|list|, amount))
  {
    hide Times;
    TimesAdds(0, 0, amount);
    TimesAdds(0, 0, Times(|list|, amount));
    if crashes != [] {
      var init, last := crashes[..|crashes| - 1], crashes[|crashes| - 1];
      CreditsAreWithin(s, list, init, amount);
      TimesAdds(CreditsMade(s, list, init), Reach(s, list, last), amount);
      TimesMonotonic(Reach(s, list, last), |list|, amount);
      TimesAdds(|init|, 1, Times(|list|, amount));
    }
  }

  lemma {:induction false} BlockedCredits(s: Store, list: seq<Win>, j: nat, crashes: seq<nat>)
    requires j < |list| && !HasWallet(s, list[j]) && forall i :: 0 <= i < j ==> HasWallet(s, list[i])
    requires forall i :: 0 <= i < |crashes| ==> j <= crashes[i]
    ensures CreditsMade(s, list, crashes) == |crashes| * j
  {
    if crashes != [] {
      BlockedCredits(s, list, j, crashes[..|crashes| - 1]);
    }
  }

  /** A winner without a wallet at place `j` blocks the ones behind it for good, and every attempt pays the
      first `j` again: r attempts that do not die earlier pay r*j shares. */
  lemma BlockedPayoutRepeats(
    s: Store, list: seq<Win>, j: nat, amount: real, text: string, crashes: seq<nat>, ids: seq<string>)
    requires WalletsExist(s) && Enumerates(ids, s)
    requires j < |list| && !HasWallet(s, list[j]) && forall i :: 0 <= i < j ==> HasWallet(s, list[i])
    requires forall i :: 0 <= i < |crashes| ==> j <= crashes[i]
    ensures
      var r := Attempts(s, list, amount, text, crashes);
      Enumerates(ids, r) && Total(r.balances, ids) == Total(s.balances, ids) + Times(|crashes| * j, amount)
  {
    hide Attempts, CreditsMade, Total, Times, NoDuplicates;
    BlockedCredits(s, list, j, crashes);
    AttemptsTotal(s, list, amount, text, crashes, ids);
  }

  /** The sum of min(crashes[i], n): the credits of attempts that all get to place `n` unless they die. */
  function Survived(crashes: seq<nat>, n: nat): nat {
    if crashes == [] then 0 else Survived(crashes[..|crashes| - 1], n) + Min(crashes[|crashes| - 1], n)
  }

  /** The first winner without a wallet, or else the end of the list, caps every attempt alike. */
  lemma {:induction false} CreditsAreCapped(s: Store, list: seq<Win>, crashes: seq<nat>)
    ensures CreditsMade(s, list, crashes) == Survived(crashes, Reach(s, list, |list|))
  {
    hide Reach;
    if crashes != [] {
      var last := crashes[|crashes| - 1];
      CreditsAreCapped(s, list, crashes[..|crashes| - 1]);
      ReachIs(s, list, last, Min(last, Reach(s, list, |list|)));
    }
  }

  lemma ReachAllIff(s: Store, wins: seq<Win>)
    ensures
      var list := PayList(wins, Users(wins));
      |list| == |wins| && (Reach(s, list, |list|) == |list| <==> forall w :: w in wins ==> HasWallet(s, w))
  {
    hide PayList, Users, Reach, HasWallet;
    var list := PayList(wins, Users(wins));
    assert forall w :: w in wins ==> w.userId in Users(wins);
    PayListIsPermutation(wins, Users(wins));
    SameElements(list, wins);
    SameElements(wins, list);
    if forall w :: w in wins ==> HasWallet(s, w) {
      ReachIs(s, list, |list|, |list|);
    }
  }

  lemma TimesIsPool(n: nat, total: nat, pool: real)
    requires 0 < total && 0.0 < pool
    ensures Times(n, pool / total as real) == pool <==> n == total
  {
    var share := pool / total as real;
    assert share > 0.0;
    TimesShare(total, pool);
    if n < total {
      TimesAdds(n, total - n, share);
      TimesMonotonic(1, total - n, share);
      TimesAdds(1, 0, share);
    } else if n > total {
      TimesAdds(total, n - total, share);
      TimesMonotonic(1, n - total, share);
      TimesAdds(1, 0, share);
    }
  }

  /** Attempts pay exactly the pool, in all, if and only if as many credits survive as there are winning
      attempts; every attempt is capped by the first winner without a wallet. */
  lemma AttemptsPayThePoolIff(s: Store, wins: seq<Win>, pool: real, title: string, crashes: seq<nat>, ids: seq<string>)
    requires WalletsExist(s) && Enumerates(ids, s) && wins != [] && 0.0 < pool
    ensures
      var list := PayList(wins, Users(wins));
      var r := Attempts(s, list, pool / |wins| as real, RewardText(title), crashes);
      && Enumerates(ids, r)
      && (Total(r.balances, ids) == Total(s.balances, ids) + pool
          <==> Survived(crashes, Reach(s, list, |list|)) == |wins|)
  {
    hide Times, PayList, Users, RewardText, Total, NoDuplicates, Attempts, CreditsMade, Survived, Reach;
    var list, share := PayList(wins, Users(wins)), pool / |wins| as real;
    AttemptsTotal(s, list, share, RewardText(title), crashes, ids);
    CreditsAreCapped(s, list, crashes);
    TimesIsPool(CreditsMade(s, list, crashes), |wins|, pool);
  }

  /** With a wallet for every winner, cut and repeated attempts pay exactly the pool if and only if their
      credits add up to the number of winning attempts: beside a complete attempt every other one must die
      before its first credit. */
  lemma RetriesPayThePoolIff(s: Store, wins: seq<Win>, pool: real, title: string, crashes: seq<nat>, ids: seq<string>)
    requires WalletsExist(s) && Enumerates(ids, s) && wins != [] && 0.0 < pool
    requires forall w :: w in wins ==> HasWallet(s, w)
    ensures
      var r := Attempts(s, PayList(wins, Users(wins)), pool / |wins| as real, RewardText(title), crashes);
      && Enumerates(ids, r)
      && (Total(r.balances, ids) == Total(s.balances, ids) + pool <==> Survived(crashes, |wins|) == |wins|)
  {
    hide PayList, Users, RewardText, Total, NoDuplicates, Attempts, Survived, Reach;
    ReachAllIff(s, wins);
    AttemptsPayThePoolIff(s, wins, pool, title, crashes, ids);
  }

  /** One attempt that does not die pays exactly the pool if and only if every winner has a wallet. */
  lemma PayoutIsThePoolIff(s: Store, wins: seq<Win>, pool: real, title: string, ids: seq<string>)
    requires WalletsExist(s) && Enumerates(ids, s) && wins != [] && 0.0 < pool
    ensures
      var list := PayList(wins, Users(wins));
      var r := PayOut(s, list[..Reach(s, list, |list|)], pool / |wins| as real, RewardText(title));
      && Enumerates(ids, r)
      && (Total(r.balances, ids) == Total(s.balances, ids) + pool <==> forall w :: w in wins ==> HasWallet(s, w))
  {
    hide Times, PayOut, PayList, Users, RewardText, Total, NoDuplicates, Reach, HasWallet;
    var list, share := PayList(wins, Users(wins)), pool / |wins| as real;
    var n := Reach(s, list, |list|);
    ReachAllIff(s, wins);
    PayOutTotal(s, list[..n], share, RewardText(title), ids);
    TimesIsPool(n, |wins|, pool);
  }

  datatype Group = Group(count: nat, attemptIds: seq<string>)

  function Ids(wins: seq<Win>): (ids: seq<string>)
    ensures |ids| == |wins| && forall i :: 0 <= i < |wins| ==> ids[i] == wins[i].attemptId
  {
    seq(|wins|, i requires 0 <= i < |wins| => wins[i].attemptId)
  }

  /** What the map of winners holds for one user. */
  predicate IsGroupOf(group: Group, wins: seq<Win>, user: string) {
    group.count == |OfUser(wins, user)| && group.attemptIds == Ids(OfUser(wins, user))
  }

  lemma {:induction false} OfNobody(wins: seq<Win>, user: string)
    requires user !in Users(wins)
    ensures OfUser(wins, user) == []
  {
    assert forall w :: w in wins ==> w.userId in Users(wins);
    SomeElement(OfUser(wins, user));
  }

  /** `group`, with `win` added if it is the user's. */
  function Joined(group: Group, win: Win, user: string): Group {
    if win.userId == user then Group(group.count + 1, group.attemptIds + [win.attemptId]) else group
  }

  lemma JoinedIsGroup(group: Group, wins: seq<Win>, win: Win, user: string)
    requires IsGroupOf(group, wins, user)
    ensures IsGroupOf(Joined(group, win, user), wins + [win], user)
  {
    OfUserAppend(wins, win, user);
  }

  lemma FirstOfUser(wins: seq<Win>, win: Win)
    requires win.userId !in Users(wins)
    ensures IsGroupOf(Group(1, [win.attemptId]), wins + [win], win.userId)
  {
    OfNobody(wins, win.userId);
    OfUserAppend(wins, win, win.userId);
  }

  lemma UsersAppend(wins: seq<Win>, win: Win)
    ensures Users(wins + [win]) == Users(wins) + if win.userId in Users(wins) then [] else [win.userId]
  {}

  ghost predicate Grouped(order: seq<string>, groups: map<string, Group>, wins: seq<Win>) {
    && order == Users(wins)
    && (forall u :: u in order <==> u in groups)
    && forall u :: u in groups ==> IsGroupOf(groups[u], wins, u)
  }

  /** The first loop of the payout: the map's keys in insertion order, and its values. */
  method GroupByUser(wins: seq<Win>) returns (order: seq<string>, groups: map<string, Group>)
    ensures Grouped(order, groups, wins)
  {
    hide IsGroupOf, Users, OfUser;
    order, groups := [], map[];
    NoUsers();
    for i := 0 to |wins|
      invariant Grouped(order, groups, wins[..i])
    {
      var win := wins[i];
      ghost var seen, before := wins[..i], groups;
      assert wins[..i + 1] == seen + [win];
      UsersAppend(seen, win);
      forall u | u in groups
        ensures IsGroupOf(Joined(groups[u], win, u), seen + [win], u)
      {
        JoinedIsGroup(groups[u], seen, win, u);
      }
      if win.userId in groups {
        var group := groups[win.userId];
        groups := groups[win.userId := Group(group.count + 1, group.attemptIds + [win.attemptId])];
      } else {
        FirstOfUser(seen, win);
        order := order + [win.userId];
        groups := groups[win.userId := Group(1, [win.attemptId])];
      }
      assert forall u :: u in before && u != win.userId ==> groups[u] == Joined(before[u], win, u);
    }
    assert wins[..|wins|] == wins;
  }

  lemma NoUsers()
    ensures Users([]) == []
  {}

  lemma {:induction false} PayListAppend(wins: seq<Win>, users: seq<string>, user: string)
    ensures PayList(wins, users + [user]) == PayList(wins, users) + OfUser(wins, user)
  {
    if users != [] {
      assert (users + [user])[1..] == users[1..] + [user];
      PayListAppend(wins, users[1..], user);
    }
  }

  lemma {:induction false} PayListPrefix(wins: seq<Win>, users: seq<string>, i: nat)
    requires i <= |users|
    ensures PayList(wins, users[..i]) <= PayList(wins, users)
  {
    if i > 0 {
      assert users[..i][1..] == users[1..][..i - 1];
      PayListPrefix(wins, users[1..], i - 1);
    }
  }

  lemma ReachConcat(s: Store, a: seq<Win>, b: seq<Win>, crash: nat)
    ensures
      var n := Reach(s, a, crash);
      Reach(s, a + b, crash) == if n < |a| then n else n + Reach(s, b, crash - n)
  {
    hide Reach, HasWallet;
    var n := Reach(s, a, crash);
    if n < |a| {
      ReachIs(s, a + b, crash, n);
    } else {
      var m := Reach(s, b, crash - n);
      assert m < |b| ==> (a + b)[n + m] == b[m];
      ReachIs(s, a + b, crash, n + m);
    }
  }

  lemma {:induction false} PayOutConcat(s: Store, a: seq<Win>, b: seq<Win>, amount: real, text: string)
    requires WalletsExist(s)
    ensures PayOut(s, a + b, amount, text) == PayOut(PayOut(s, a, amount, text), b, amount, text)
  {
    if b == [] {
      assert a + b == a;
    } else {
      assert (a + b)[..|a + b| - 1] == a + b[..|b| - 1];
      PayOutConcat(s, a, b[..|b| - 1], amount, text);
    }
  }

  /** What holds of a job that has paid the first `paid` entries of `list`, and stopped there if `list` is
      longer. */
  ghost predicate HasPaid(
    s: Store, r: Store, list: seq<Win>, crash: nat, paid: nat, amount: real, text: string)
    requires WalletsExist(s)
  {
    paid == Reach(s, list, crash) && r == PayOut(s, list[..paid], amount, text)
  }

  /** Paying `a` and then, if that went through, `b`. */
  lemma HasPaidConcat(
    s: Store, mid: Store, r: Store, a: seq<Win>, b: seq<Win>, crash: nat, paid: nat, more: nat,
    amount: real, text: string)
    requires WalletsExist(s) && HasPaid(s, mid, a, crash, paid, amount, text)
    requires if paid < |a| then more == 0 && r == mid else HasPaid(mid, r, b, crash - paid, more, amount, text)
    ensures HasPaid(s, r, a + b, crash, paid + more, amount, text)
  {
    hide PayOut, Reach, HasWallet;
    ReachConcat(s, a, b, crash);
    if paid < |a| {
      assert (a + b)[..paid] == a[..paid];
    } else {
      ReachDependsOnWallets(s, mid, b, crash - paid);
      assert (a + b)[..paid + more] == a[..paid] + b[..more];
      PayOutConcat(s, a[..paid], b[..more], amount, text);
    }
  }

  function WinsOf(user: string, attemptIds: seq<string>): seq<Win> {
    seq(|attemptIds|, i requires 0 <= i < |attemptIds| => Win(user, attemptIds[i]))
  }

  /** The inner loop: credit one user's attempts. It ends early where a credit throws or the job dies. */
  method CreditAttempts(
    payments: PaymentService.Service, user: string, attemptIds: seq<string>, amount: real, text: string, crash: nat)
    returns (paid: nat)
    requires PaymentService.Consistent(payments.Snapshot())
    modifies payments`balances, payments`history
    ensures PaymentService.Consistent(payments.Snapshot())
    ensures HasPaid(old(payments.Snapshot()), payments.Snapshot(), WinsOf(user, attemptIds), crash, paid, amount, text)
  {
    hide Reach, CreditStep, PaymentService.Consistent;
    PaymentService.ConsistentWallets(payments.Snapshot());
    ghost var s, list := payments.Snapshot(), WinsOf(user, attemptIds);
    paid := 0;
    while paid < |attemptIds| && paid < crash
      invariant paid <= |attemptIds| && paid <= crash
      invariant WalletsExist(payments.Snapshot()) && PaymentService.Consistent(payments.Snapshot())
      invariant payments.Snapshot() == PayOut(s, list[..paid], amount, text)
      invariant paid > 0 ==> user in s.walletOf
    {
      assert list[..paid + 1][..paid] == list[..paid] && list[..paid + 1][paid] == Win(user, attemptIds[paid]);
      var ok := payments.CreditUserWallet(user, amount, QUIZ_REWARD, text, Some(attemptIds[paid]));
      if !ok {
        break;
      }
      paid := paid + 1;
    }
    ReachIs(s, list, crash, paid);
  }

  /** One attempt of the payout job. `crash` is how many credits it lives through; a credit that throws ends
      it as well. What it has paid by then stays paid. */
  method ProcessQuizWinningRewards(
    payments: PaymentService.Service, pool: real, title: string, wins: seq<Win>, crash: nat) returns (paid: nat)
    requires PaymentService.Consistent(payments.Snapshot())
    modifies payments`balances, payments`history
    ensures PaymentService.Consistent(payments.Snapshot())
    ensures wins == [] ==> paid == 0 && payments.Snapshot() == old(payments.Snapshot())
    ensures wins != [] ==>
      HasPaid(old(payments.Snapshot()), payments.Snapshot(), PayList(wins, Users(wins)), crash, paid,
              pool / |wins| as real, RewardText(title))
  {
    hide Users, OfUser, PayList, IsGroupOf, PayOut, Reach, HasPaid, RewardText, PaymentService.Consistent;
    PaymentService.ConsistentWallets(payments.Snapshot());
    paid := 0;
    if wins == [] {
      return;
    }
    ghost var s, share := payments.Snapshot(), pool / |wins| as real;
    var order, groups := GroupByUser(wins);
    ghost var list := PayList(wins, order);
    NothingPaid(s, crash, share, RewardText(title));
    NoUsersPaid(wins);
    for i := 0 to |order|
      invariant WalletsExist(payments.Snapshot()) && PaymentService.Consistent(payments.Snapshot())
      invariant HasPaid(s, payments.Snapshot(), PayList(wins, order[..i]), crash, paid, share, RewardText(title))
      invariant paid == |PayList(wins, order[..i])| <= crash
    {
      var group := groups[order[i]];
      GroupsAreNonEmpty(wins, order[i], group);
      var amount := PerAttempt(pool, group.count, |wins|);
      ghost var mid := payments.Snapshot();
      var more := CreditAttempts(payments, order[i], group.attemptIds, amount, RewardText(title), crash - paid);
      HasPaidConcat(s, mid, payments.Snapshot(), PayList(wins, order[..i]), OfUser(wins, order[i]), crash, paid, more,
                    share, RewardText(title));
      PayListAppend(wins, order[..i], order[i]);
      assert order[..i] + [order[i]] == order[..i + 1];
      paid := paid + more;
      if more < |group.attemptIds| {
        StopsForGood(s, payments.Snapshot(), wins, order, i + 1, crash, paid, share, RewardText(title));
        return;
      }
      PaidWithin(s, payments.Snapshot(), PayList(wins, order[..i + 1]), crash, paid, share, RewardText(title));
    }
    assert order[..|order|] == order;
  }

  lemma NothingPaid(s: Store, crash: nat, amount: real, text: string)
    requires WalletsExist(s)
    ensures HasPaid(s, s, [], crash, 0, amount, text)
  {}

  lemma NoUsersPaid(wins: seq<Win>)
    ensures PayList(wins, []) == []
  {}

  lemma GroupsAreNonEmpty(wins: seq<Win>, user: string, group: Group)
    requires user in Users(wins) && IsGroupOf(group, wins, user)
    ensures group.count > 0 && WinsOf(user, group.attemptIds) == OfUser(wins, user)
  {
    var w :| w in wins && w.userId == user;
    assert w in OfUser(wins, user);
    var mine := OfUser(wins, user);
    assert forall i :: 0 <= i < |mine| ==> mine[i] in mine;
  }

  lemma PaidWithin(s: Store, r: Store, list: seq<Win>, crash: nat, paid: nat, amount: real, text: string)
    requires WalletsExist(s) && HasPaid(s, r, list, crash, paid, amount, text)
    ensures paid <= crash && paid <= |list| && WalletsExist(r)
  {}

  lemma StopsForGood(
    s: Store, r: Store, wins: seq<Win>, order: seq<string>, i: nat, crash: nat, paid: nat, amount: real, text: string)
    requires WalletsExist(s) && i <= |order| && paid < |PayList(wins, order[..i])|
    requires HasPaid(s, r, PayList(wins, order[..i]), crash, paid, amount, text)
    ensures HasPaid(s, r, PayList(wins, order), crash, paid, amount, text)
  {
    hide PayList;
    PayListPrefix(wins, order, i);
    var done, list := PayList(wins, order[..i]), PayList(wins, order);
    assert list == done + list[|done|..];
    HasPaidConcat(s, r, r, done, list[|done|..], crash, paid, 0, amount, text);
  }
}

/**
 * The vote tallies of src/voteutil.ts.  The options counts are a sequence
 * of integers indexed from 0, as the code reads them; a tally is the
 * winning index with its count, and `None` is the source's undefined.
 */
module VoteUtil {
  import opened Wrappers

  datatype Tally = Tally(result: nat, count: int)

  /** Option `i` is the only one with a positive count. */
  ghost predicate UniquePositive(options: seq<int>, i: nat)
  {
    i < |options| && options[i] > 0 && forall j :: 0 <= j < |options| && j != i ==> options[j] <= 0
  }

  /** Option `i` has a positive count that every other option's count is strictly below. */
  ghost predicate StrictMax(options: seq<int>, i: nat)
  {
    i < |options| && options[i] > 0 && forall j :: 0 <= j < |options| && j != i ==> options[j] < options[i]
  }

  /** Two positive options leave no unique positive one. */
  lemma TwoPositive(options: seq<int>, a: nat, b: nat)
    requires a < b < |options| && options[a] > 0 && options[b] > 0
    ensures forall m: nat :: !UniquePositive(options, m)
  {
    forall m: nat
      ensures !UniquePositive(options, m)
    {
      var other := if m == a then b else a;
      assert other != m && options[other] > 0;
    }
  }

  /** Two options tied at a count no option exceeds leave no strict maximum. */
  lemma TiedAtTop(options: seq<int>, a: nat, b: nat)
    requires a < b < |options| && options[a] == options[b]
    requires forall j :: 0 <= j < |options| ==> options[j] <= options[a]
    ensures forall m: nat :: !StrictMax(options, m)
  {
    forall m: nat
      ensures !StrictMax(options, m)
    {
      var other := if m == a then b else a;
      assert other != m && (m < |options| ==> options[other] >= options[m]);
    }
  }

  /**
   * DefaultUnanimousVote: the option that is the only one with a positive
   * count, with that count; None when no option or several options are
   * positive.
   */
  method DefaultUnanimousVote(options: seq<int>) returns (r: Option<Tally>)
    ensures r.Some? ==> UniquePositive(options, r.value.result) && r.value.count == options[r.value.result]
    ensures r.None? ==> forall m: nat :: !UniquePositive(options, m)
  {
    var result: Option<nat> := None;
    var count := 0;
    for i := 0 to |options|
      invariant result.None? ==> forall j :: 0 <= j < i ==> options[j] <= 0
      invariant result.Some? ==> result.value < i && options[result.value] > 0 && count == options[result.value]
      invariant result.Some? ==> forall j :: 0 <= j < i && j != result.value ==> options[j] <= 0
    {
      var v := options[i];
      if v > 0 {
        if result.Some? {
          TwoPositive(options, result.value, i);
          return None;
        }
        result := Some(i);
        count := v;
      }
    }
    if result.Some? {
      r := Some(Tally(result.value, count));
    } else {
      r := None;
    }
  }

  /**
   * DefaultMajorityVote: the option whose positive count is a strict
   * maximum, with that count; None on a tie at the top or when no count is
   * positive.
   */
  method DefaultMajorityVote(options: seq<int>) returns (r: Option<Tally>)
    ensures r.Some? ==> StrictMax(options, r.value.result) && r.value.count == options[r.value.result]
    ensures r.None? ==> forall m: nat :: !StrictMax(options, m)
  {
    var result: Option<nat> := None;
    var count := 0;
    ghost var tieA: nat, tieB: nat := 0, 0;
    for i := 0 to |options|
      invariant count >= 0 && forall j :: 0 <= j < i ==> options[j] <= count
      invariant result.Some? ==> result.value < i && options[result.value] == count && count > 0
      invariant result.Some? ==> forall j :: 0 <= j < i && j != result.value ==> options[j] < count
      invariant result.None? && count > 0 ==> tieA < tieB < i && options[tieA] == count == options[tieB]
    {
      var v := options[i];
      if v > count {
        result := Some(i);
        count := v;
      } else if v == count {
        if result.Some? {
          tieA, tieB := result.value, i;
        } else if count > 0 {
          assert options[tieA] == count == options[tieB];
        }
        result := None;
      }
    }
    if result.Some? {
      r := Some(Tally(result.value, count));
    } else {
      r := None;
      if count > 0 {
        TiedAtTop(options, tieA, tieB);
      }
    }
  }

  /** The unanimous winner, when there is one, is also the majority winner. */
  lemma UnanimousIsMajority(options: seq<int>, i: nat)
    requires UniquePositive(options, i)
    ensures StrictMax(options, i)
  {
  }

  /** There is at most one strict maximum, so the majority tally is determined by the counts. */
  lemma StrictMaxUnique(options: seq<int>, i: nat, k: nat)
    requires StrictMax(options, i) && StrictMax(options, k)
    ensures i == k
  {
  }

  /** YesNoUnanimousVote: the unanimous tally when its option is index 1, otherwise None. */
  method YesNoUnanimousVote(options: seq<int>) returns (r: Option<Tally>)
    ensures r.Some? <==> UniquePositive(options, 1)
    ensures r.Some? ==> r.value == Tally(1, options[1])
  {
    var t := DefaultUnanimousVote(options);
    if t.Some? && t.value.result == 1 {
      r := t;
    } else {
      r := None;
    }
  }

  /** YesNoMajorityVote: the majority tally when its option is index 1, otherwise None. */
  method YesNoMajorityVote(options: seq<int>) returns (r: Option<Tally>)
    ensures r.Some? <==> StrictMax(options, 1)
    ensures r.Some? ==> r.value == Tally(1, options[1])
  {
    var t := DefaultMajorityVote(options);
    if t.Some? && t.value.result == 1 {
      r := t;
    } else {
      r := None;
      if t.Some? && StrictMax(options, 1) {
        StrictMaxUnique(options, 1, t.value.result);
      }
    }
  }

  /** DefaultCanStartVote: a vote may always start, with no reason given. */
  function DefaultCanStartVote(command: string, caller: string, targetid: string): (r: (bool, Option<string>))
    ensures r.0 && r.1.None?
  {
    (true, None)
  }
}

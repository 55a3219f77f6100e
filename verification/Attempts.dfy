/** How often each race has tried to transfer a file, and when it is enough. */
module TransferAttempts {
  import opened Base
  import opened Sums

  const MAX_SINGLE_PAIR_FILE_TRANSFER_ATTEMPTS: nat := 4
  const MAX_TRANSFER_ATTEMPTS_BEFORE_SKIP: nat := 7

  /** Without a source: all attempts to bring the file to the destination. */
  datatype AttemptKey = AttemptKey(file: string, src: Option<ListId>, dst: ListId)

  predicate Matches(key: AttemptKey, attempt: Key) {
    attempt.name == key.file && attempt.dst == key.dst && (key.src == None || key.src == Some(attempt.src))
  }

  function Weight(key: AttemptKey): Key -> int {
    (attempt: Key) => if Matches(key, attempt) then 1 else 0
  }

  /** The number of attempts that a counter is about. */
  function Tries(history: seq<Key>, key: AttemptKey): int {
    Sum(history, Weight(key))
  }

  /** The counters count the attempts since they were last cleared. */
  ghost predicate Counted(counters: map<AttemptKey, nat>, history: seq<Key>) {
    forall key :: if key in counters then counters[key] == Tries(history, key) > 0 else Tries(history, key) == 0
  }

  function Bumped(counters: map<AttemptKey, nat>, key: AttemptKey): map<AttemptKey, nat> {
    counters[key := if key in counters then counters[key] + 1 else 1]
  }

  lemma AttemptCounted(counters: map<AttemptKey, nat>, history: seq<Key>, k: Key)
    requires Counted(counters, history)
    ensures Counted(Bumped(Bumped(counters, AttemptKey(k.name, None, k.dst)), AttemptKey(k.name, Some(k.src), k.dst)),
                    history + [k])
  {
    hide Sum;
    var all, one := AttemptKey(k.name, None, k.dst), AttemptKey(k.name, Some(k.src), k.dst);
    forall key
      ensures Tries(history + [k], key) == Tries(history, key) + if key == all || key == one then 1 else 0
    {
      SumAppend(history, k, Weight(key));
      if Matches(key, k) {
        assert key == AttemptKey(k.name, key.src, k.dst);
      }
    }
  }

  // ----- giving up -----

  /** A file is given up when one pair of sites has tried it four times, or the destination
      has been tried seven times from anywhere. */
  predicate GivenUp(history: seq<Key>, k: Key) {
    || Tries(history, AttemptKey(k.name, None, k.dst)) >= MAX_TRANSFER_ATTEMPTS_BEFORE_SKIP
    || Tries(history, AttemptKey(k.name, Some(k.src), k.dst)) >= MAX_SINGLE_PAIR_FILE_TRANSFER_ATTEMPTS
  }

  /** What was given up stays given up, and only an attempt at the same file for the same
      destination can give a transfer up. */
  lemma GivenUpStays(history: seq<Key>, k: Key, attempt: Key)
    ensures GivenUp(history, k) ==> GivenUp(history + [attempt], k)
    ensures !GivenUp(history, k) && GivenUp(history + [attempt], k) ==> attempt.name == k.name && attempt.dst == k.dst
  {
    hide Sum;
    SumAppend(history, attempt, Weight(AttemptKey(k.name, None, k.dst)));
    SumAppend(history, attempt, Weight(AttemptKey(k.name, Some(k.src), k.dst)));
  }

  /** No attempt of a pair goes unnoticed at the destination. */
  lemma PairWithinAll(history: seq<Key>, k: Key)
    ensures 0 <= Tries(history, AttemptKey(k.name, Some(k.src), k.dst)) <=
            Tries(history, AttemptKey(k.name, None, k.dst))
  {
    SumAtLeast(history, Weight(AttemptKey(k.name, Some(k.src), k.dst)), 0);
    SumLess(history, Weight(AttemptKey(k.name, Some(k.src), k.dst)), Weight(AttemptKey(k.name, None, k.dst)));
  }

  lemma {:induction false} RepeatedTries(k: Key, n: nat, key: AttemptKey)
    ensures Tries(seq(n, i => k), key) == if Matches(key, k) then n else 0
  {
    if n > 0 {
      RepeatedTries(k, n - 1, key);
      assert seq(n, i => k)[..n - 1] == seq(n - 1, i => k);
    }
  }

  /** The fourth attempt from one list is one too many, and the seventh from any other. */
  lemma RepeatedGivesUp(k: Key, attempt: Key, n: nat)
    requires attempt.name == k.name && attempt.dst == k.dst
    ensures GivenUp(seq(n, i => attempt), k) <==> n >= if attempt == k then 4 else 7
  {
    hide Tries;
    RepeatedTries(attempt, n, AttemptKey(k.name, None, k.dst));
    RepeatedTries(attempt, n, AttemptKey(k.name, Some(k.src), k.dst));
  }

  // ----- trying again -----

  /** The attempts of all other races. */
  function Forget(history: seq<Key>, race: nat): seq<Key> {
    if history == [] then []
    else
      var r, k := Forget(history[..|history| - 1], race), history[|history| - 1];
      if k.dst.race == race then r else r + [k]
  }

  lemma {:induction false} ForgetTries(history: seq<Key>, race: nat, key: AttemptKey)
    ensures Tries(Forget(history, race), key) == if key.dst.race == race then 0 else Tries(history, key)
  {
    if history != [] {
      var init, k := history[..|history| - 1], history[|history| - 1];
      ForgetTries(init, race, key);
      SumAppend(Forget(init, race), k, Weight(key));
    }
  }

  /** Only the transfers of that race may be tried again. */
  lemma ForgetGivenUp(history: seq<Key>, race: nat, k: Key)
    ensures GivenUp(Forget(history, race), k) <==> GivenUp(history, k) && k.dst.race != race
  {
    hide Sum;
    ForgetTries(history, race, AttemptKey(k.name, None, k.dst));
    ForgetTries(history, race, AttemptKey(k.name, Some(k.src), k.dst));
  }

  lemma TriedOnce(history: seq<Key>, key: AttemptKey)
    ensures Tries(history, key) > 0 ==> exists k :: k in history && Matches(key, k)
    ensures Tries(history, key) >= 0
  {
    SumAtLeast(history, Weight(key), 0);
    if !exists k :: k in history && Matches(key, k) {
      SumZero(history, Weight(key));
    }
  }

  lemma WasTried(history: seq<Key>, i: nat)
    requires i < |history|
    ensures Tries(history, AttemptKey(history[i].name, None, history[i].dst)) > 0
  {
    SumAtLeast(history, Weight(AttemptKey(history[i].name, None, history[i].dst)), i);
  }

  /** The counters of the races. A race has those about destinations of its own. */
  class Attempts {
    var transferattempts: map<AttemptKey, nat>
    var transferattemptscleared: set<nat>
    /** The attempts since the counters were last cleared. */
    ghost var History: seq<Key>

    ghost predicate Valid()
      reads this
    {
      Counted(transferattempts, History)
    }

    constructor ()
      ensures Valid() && History == [] && transferattemptscleared == {}
    {
      transferattempts, transferattemptscleared, History := map[], {}, [];
    }

    method HasFailedTransfer(k: Key) returns (r: bool)
      requires Valid()
      ensures r <==> GivenUp(History, k)
    {
      hide Sum;
      var matchall := AttemptKey(k.name, None, k.dst);
      if matchall in transferattempts && transferattempts[matchall] >= MAX_TRANSFER_ATTEMPTS_BEFORE_SKIP {
        return true;
      }
      var match_ := AttemptKey(k.name, Some(k.src), k.dst);
      return match_ in transferattempts && transferattempts[match_] >= MAX_SINGLE_PAIR_FILE_TRANSFER_ATTEMPTS;
    }

    /** A transfer that has ended, well or not. */
    method AddTransferAttempt(k: Key)
      requires Valid()
      modifies this
      ensures Valid() && History == old(History) + [k] && transferattemptscleared == old(transferattemptscleared)
    {
      hide Sum;
      AttemptCounted(transferattempts, History, k);
      var matchall, match_ := AttemptKey(k.name, None, k.dst), AttemptKey(k.name, Some(k.src), k.dst);
      if matchall !in transferattempts {
        transferattempts := transferattempts[matchall := 1];
      } else {
        transferattempts := transferattempts[matchall := transferattempts[matchall] + 1];
      }
      if match_ !in transferattempts {
        transferattempts := transferattempts[match_ := 1];
      } else {
        transferattempts := transferattempts[match_ := transferattempts[match_] + 1];
      }
      History := History + [k];
    }

    /** Everything of a race may be tried again. */
    method ClearTransferAttempts(race: nat, clearstate: bool) returns (any: bool)
      requires Valid()
      modifies this
      ensures Valid() && History == Forget(old(History), race)
      ensures transferattemptscleared == if clearstate then old(transferattemptscleared) + {race}
              else old(transferattemptscleared) - {race}
      ensures any <==> exists k :: k in old(History) && k.dst.race == race
    {
      hide Sum, Tries;
      forall key
        ensures Tries(Forget(History, race), key) == if key.dst.race == race then 0 else Tries(History, key)
      {
        ForgetTries(History, race, key);
      }
      any := exists key :: key in transferattempts && key.dst.race == race;
      AnyOf(transferattempts, History, race);
      transferattempts := map key | key in transferattempts && key.dst.race != race :: transferattempts[key];
      transferattemptscleared := if clearstate then transferattemptscleared + {race}
        else transferattemptscleared - {race};
      History := Forget(History, race);
    }

    static lemma AnyOf(counters: map<AttemptKey, nat>, history: seq<Key>, race: nat)
      requires Counted(counters, history)
      ensures (exists key :: key in counters && key.dst.race == race) <==>
              exists k :: k in history && k.dst.race == race
    {
      hide Sum, Tries;
      if key :| key in counters && key.dst.race == race {
        TriedOnce(history, key);
      }
      if k :| k in history && k.dst.race == race {
        var i: nat :| i < |history| && history[i] == k;
        WasTried(history, i);
        assert AttemptKey(k.name, None, k.dst) in counters;
      }
    }
  }
}

/** Facts about the agent's queue: its order, what trimming keeps, and what removal and
    restoring select. */
module AgentQueues {
  import opened AgentBuffer

  predicate Before(a: Reading, b: Reading) {
    a.session < b.session || (a.session == b.session && a.sequence < b.sequence)
  }

  /** In the order of collection; so all keys differ. */
  ghost predicate Sorted(q: Queue) {
    forall i, j :: 0 <= i < j < |q| ==> Before(q[i], q[j])
  }

  predicate Fits(q: Queue) {
    |q| <= MAX_BUFFERED && (q == [] || Encoded(q) <= MAX_FILE)
  }

  ghost predicate Within(q: Queue, file: Queue) {
    forall r :: r in q ==> r in file
  }

  // ---- suffixes and selections ----

  predicate IsSuffix(s: Queue, q: Queue) {
    |s| <= |q| && s == q[|q| - |s|..]
  }

  lemma SuffixKeeps(s: Queue, q: Queue)
    requires IsSuffix(s, q)
    ensures Sorted(q) ==> Sorted(s)
    ensures Within(s, q)
    ensures forall i :: |q| - |s| <= i < |q| ==> q[i] in s
  {
    var k := |q| - |s|;
    forall i, j | Sorted(q) && 0 <= i < j < |s|
      ensures Before(s[i], s[j])
    {
      assert s[i] == q[k + i] && s[j] == q[k + j];
    }
    forall i | k <= i < |q| ensures q[i] in s { assert s[i - k] == q[i]; }
  }

  /** In a sorted queue, what is before a suffix is not in it. */
  lemma PrefixIsGone(s: Queue, q: Queue, i: nat)
    requires IsSuffix(s, q) && Sorted(q) && i < |q| - |s|
    ensures q[i] !in s
  {
    forall j | 0 <= j < |s| ensures s[j] != q[i] {
      assert s[j] == q[|q| - |s| + j];
    }
  }

  lemma {:induction false} EncodedTail(q: Queue, k: nat)
    requires k <= |q|
    ensures Encoded(q[k..]) <= Encoded(q)
  {
    if k == 0 {
      assert q[0..] == q;
    } else {
      EncodedTail(q[1..], k - 1);
      assert q[1..][k - 1..] == q[k..];
    }
  }

  lemma {:induction false} FittedIsSuffix(q: Queue)
    ensures IsSuffix(Fitted(q), q)
    ensures Fitted(q) == [] || Encoded(Fitted(q)) <= MAX_FILE
  {
    hide Encoded;
    if |q| > 0 && Encoded(q) > MAX_FILE { FittedIsSuffix(q[1..]); }
  }

  /** Fitted is the longest suffix that fits the file, or nothing. */
  lemma {:induction false} FittedIsLongest(q: Queue, i: nat)
    requires i < |q|
    ensures i < |q| - |Fitted(q)| <==> Encoded(q[i..]) > MAX_FILE
  {
    FittedIsSuffix(q);
    if |q| > 0 && Encoded(q) > MAX_FILE {
      hide Encoded;
      if i > 0 {
        FittedIsLongest(q[1..], i - 1);
        assert q[1..][i - 1..] == q[i..];
      } else {
        FittedIsSuffix(q[1..]);
        assert q[0..] == q;
      }
    } else {
      EncodedTail(q, i);
    }
  }

  lemma {:induction false} YoungIsSuffix(q: Queue, now: int)
    ensures IsSuffix(Young(q, now), q)
    ensures forall i :: 0 <= i < |q| - |Young(q, now)| ==> q[i].sampledAt < now - TOO_OLD
    ensures Young(q, now) != [] ==> Young(q, now)[0].sampledAt >= now - TOO_OLD
  {
    if |q| > 0 && q[0].sampledAt < now - TOO_OLD {
      YoungIsSuffix(q[1..], now);
      forall i | 0 <= i < |q| - |Young(q, now)| ensures q[i].sampledAt < now - TOO_OLD {
        assert i > 0 ==> q[1..][i - 1] == q[i];
      }
    }
  }

  lemma {:induction false} EncodedAppend(q: Queue, r: Reading)
    ensures Encoded(q + [r]) == Encoded(q) + r.bytes + 1
  {
    if |q| > 0 {
      EncodedAppend(q[1..], r);
      assert (q + [r])[1..] == q[1..] + [r];
    } else {
      assert q + [r] == [r];
    }
  }

  lemma {:induction false} ChosenMembers(file: Queue, agent: string, now: int, invalid: set<Reading>)
    ensures forall r :: r in Chosen(file, agent, now, invalid) <==> r in file && Restorable(r, agent, now, invalid)
  {
    hide Restorable;
    if |file| > 0 {
      ChosenMembers(file[..|file| - 1], agent, now, invalid);
      assert file == file[..|file| - 1] + [file[|file| - 1]];
    }
  }

  lemma {:induction false} ChosenSorted(file: Queue, agent: string, now: int, invalid: set<Reading>)
    requires Sorted(file)
    ensures Sorted(Chosen(file, agent, now, invalid))
  {
    hide Restorable, Before;
    if |file| > 0 {
      var init, last := file[..|file| - 1], file[|file| - 1];
      ChosenSorted(init, agent, now, invalid);
      ChosenMembers(init, agent, now, invalid);
      forall r | r in Chosen(init, agent, now, invalid) ensures Before(r, last) {
        var i :| 0 <= i < |init| && init[i] == r;
        assert file[i] == r;
      }
    }
  }

  lemma {:induction false} ChosenSize(file: Queue, agent: string, now: int, invalid: set<Reading>)
    ensures |Chosen(file, agent, now, invalid)| <= |file|
    ensures Encoded(Chosen(file, agent, now, invalid)) <= Encoded(file)
  {
    hide Restorable;
    if |file| > 0 {
      var init, last := file[..|file| - 1], file[|file| - 1];
      ChosenSize(init, agent, now, invalid);
      assert file == init + [last];
      EncodedAppend(init, last);
      EncodedAppend(Chosen(init, agent, now, invalid), last);
    }
  }

  /** Of a file that is too long, the newest readings are kept. */
  lemma NewestAreKept(q: Queue)
    ensures IsSuffix(Newest(q), q) && |Newest(q)| == if |q| > 600 then 600 else |q|
  {}

  lemma {:induction false} WithoutMembers(q: Queue, r: Reading)
    requires Sorted(q)
    ensures forall x :: x in Without(q, r) <==> x in q && !SameKey(x, r)
  {
    if |q| > 0 {
      if SameKey(q[0], r) {
        forall x | x in q[1..] ensures !SameKey(x, r) {
          var i :| 0 <= i < |q| - 1 && q[1..][i] == x;
          assert Before(q[0], q[i + 1]);
        }
      } else {
        WithoutMembers(q[1..], r);
      }
    }
  }

  lemma {:induction false} WithoutSorted(q: Queue, r: Reading)
    requires Sorted(q)
    ensures Sorted(Without(q, r))
  {
    hide Before, SameKey;
    if |q| > 0 && !SameKey(q[0], r) {
      WithoutSorted(q[1..], r);
      WithoutWithin(q[1..], r);
      forall x | x in Without(q[1..], r) ensures Before(q[0], x) {
        var i :| 0 <= i < |q| - 1 && q[1..][i] == x;
        assert x == q[i + 1];
      }
    }
  }

  lemma {:induction false} WithoutWithin(q: Queue, r: Reading)
    ensures Within(Without(q, r), q)
  {
    if |q| > 0 && !SameKey(q[0], r) { WithoutWithin(q[1..], r); }
  }

  lemma {:induction false} WithoutSize(q: Queue, r: Reading)
    ensures |Without(q, r)| <= |q| && Encoded(Without(q, r)) <= Encoded(q)
  {
    if |q| > 0 && !SameKey(q[0], r) {
      WithoutSize(q[1..], r);
      assert Without(q, r)[1..] == Without(q[1..], r);
    }
  }

  // ---- exactly what trimming drops ----

  /** Dropped for the queue to keep to its length, or for the file to keep to its size. */
  ghost predicate Evicted(q: Queue, r: Reading) {
    exists i :: 0 <= i < |q| && q[i] == r && ((i == 0 && |q| > MAX_BUFFERED) || Encoded(q[i..]) > MAX_FILE)
  }

  /** In a run of too old readings at the front. */
  ghost predicate Outdated(q: Queue, now: int, r: Reading) {
    exists i :: 0 <= i < |q| && q[i] == r && forall k :: 0 <= k <= i ==> q[k].sampledAt < now - TOO_OLD
  }

  lemma SortedOnce(q: Queue, i: nat, j: nat)
    requires Sorted(q) && i < |q| && j < |q|
    ensures i != j ==> q[i] != q[j]
  {
    if i < j {
      assert Before(q[i], q[j]);
    } else if j < i {
      assert Before(q[j], q[i]);
    }
  }

  lemma EvictedExactly(q: Queue, r: Reading)
    requires Sorted(q) && r in q && |q| <= MAX_BUFFERED + 1
    ensures r !in Fitted(Capped(q)) <==> Evicted(q, r)
    ensures Sorted(Fitted(Capped(q))) && Fits(Fitted(Capped(q))) && Within(Fitted(Capped(q)), q)
  {
    KeptIsFine(q);
    hide Before, Fitted, Encoded, Sorted, Capped;
    var at :| 0 <= at < |q| && q[at] == r;
    FittedSplit(q, at);
    forall i | 0 <= i < |q| && q[i] == r ensures i == at { SortedOnce(q, i, at); }
  }

  lemma KeptIsFine(q: Queue)
    requires Sorted(q) && |q| <= MAX_BUFFERED + 1
    ensures Sorted(Fitted(Capped(q))) && Fits(Fitted(Capped(q))) && Within(Fitted(Capped(q)), q)
  {
    hide Before, Fitted, Encoded, Sorted;
    SuffixKeeps(Capped(q), q);
    FittedIsSuffix(Capped(q));
    SuffixKeeps(Fitted(Capped(q)), Capped(q));
  }

  lemma FittedSplit(q: Queue, at: nat)
    requires Sorted(q) && at < |q|
    ensures q[at] !in Fitted(Capped(q)) <==> (at == 0 && |q| > MAX_BUFFERED) || Encoded(q[at..]) > MAX_FILE
  {
    hide Before, Fitted, Encoded, Sorted;
    var cut := Capped(q);
    var d := |q| - |cut|;
    SuffixKeeps(cut, q);
    if at < d {
      PrefixIsGone(cut, q, at);
      FittedWithin(cut);
    } else {
      assert cut[at - d..] == q[at..] && cut[at - d] == q[at];
      FittedKeeps(cut, at - d);
    }
  }

  lemma FittedKeeps(q: Queue, i: nat)
    requires Sorted(q) && i < |q|
    ensures q[i] !in Fitted(q) <==> Encoded(q[i..]) > MAX_FILE
  {
    hide Before, Fitted, Encoded, Sorted;
    FittedIsSuffix(q);
    FittedIsLongest(q, i);
    SuffixKeeps(Fitted(q), q);
    if i < |q| - |Fitted(q)| { PrefixIsGone(Fitted(q), q, i); }
  }

  lemma NothingSorted()
    ensures Sorted([])
  {}

  lemma NothingFits()
    ensures Fits([])
  {}

  lemma YoungIsFine(q: Queue, now: int)
    requires Sorted(q) && Fits(q)
    ensures Sorted(Young(q, now)) && Fits(Young(q, now)) && Within(Young(q, now), q) && |Young(q, now)| <= |q|
  {
    hide Before, Young, Encoded, Sorted;
    var y := Young(q, now);
    YoungIsSuffix(q, now);
    SuffixKeeps(y, q);
    EncodedTail(q, |q| - |y|);
  }

  lemma YoungExactly(q: Queue, now: int, r: Reading)
    requires Sorted(q) && r in q
    ensures r !in Young(q, now) <==> Outdated(q, now, r)
  {
    var y := Young(q, now);
    var d := |q| - |y|;
    YoungIsSuffix(q, now);
    SuffixKeeps(y, q);
    var at :| 0 <= at < |q| && q[at] == r;
    if at < d {
      PrefixIsGone(y, q, at);
    } else {
      assert y != [] && y[0] == q[d];
      forall i | 0 <= i < |q| && q[i] == r ensures i >= d { SortedOnce(q, i, at); }
    }
  }

  lemma FittedWithin(q: Queue)
    ensures Within(Fitted(q), q)
  {
    FittedIsSuffix(q);
    SuffixKeeps(Fitted(q), q);
  }

  ghost predicate Excised(q: Queue, i: nat, r: Reading, after: Queue) {
    i < |q| && SameKey(q[i], r) && after == q[..i] + q[i + 1..]
  }

  lemma {:induction false} WithoutIsRemoval(q: Queue, r: Reading)
    ensures (Without(q, r) == q && forall x :: x in q ==> !SameKey(x, r))
      || exists i: nat :: Excised(q, i, r, Without(q, r))
  {
    hide SameKey;
    if |q| > 0 {
      if SameKey(q[0], r) {
        assert Excised(q, 0, r, Without(q, r));
      } else {
        var tail := q[1..];
        WithoutIsRemoval(tail, r);
        if i: nat :| Excised(tail, i, r, Without(tail, r)) {
          ExcisedLater(q, i, r);
        }
      }
    }
  }

  lemma ExcisedLater(q: Queue, i: nat, r: Reading)
    requires |q| > 0 && !SameKey(q[0], r) && Excised(q[1..], i, r, Without(q[1..], r))
    ensures Excised(q, i + 1, r, Without(q, r))
  {
    assert [q[0]] + (q[1..][..i] + q[1..][i + 1..]) == q[..i + 1] + q[i + 2..];
  }
}

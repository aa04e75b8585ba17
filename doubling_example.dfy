/**
 The repository's example program: a `std::map<char, int>` holding
 `a = 10, b = 30, c = 50`, refreshed every 5000 ms by an updater that
 doubles each value, polled until `a` reaches 100, then stopped, checked
 again, and refreshed once more on demand. Keys are the characters' codes.
 */
module DoublingExample {
  import opened RefreshSpec
  import opened Refresher

  /** The example's updater without its printing: twice the old value. */
  function Double(key: int, value: int): int
  {
    value * 2
  }

  /** Two to the power `n`. */
  function Pow2(n: nat): nat
  {
    if n == 0 then 1 else 2 * Pow2(n - 1)
  }

  /** The table the example starts from. */
  function Initial(): map<int, int>
  {
    map['a' as int := 10, 'b' as int := 30, 'c' as int := 50]
  }

  /** Doubling `n` times multiplies by `2^n`. */
  lemma {:induction false} ApplyNDouble(k: int, v: int, n: nat)
    ensures ApplyN(Double, k, v, n) == v * Pow2(n)
  {
    if n > 0 {
      ApplyNDouble(k, v, n - 1);
    }
  }

  /** After `n` passes the table still has keys `a`, `b`, `c` and holds `10 * 2^n`, `30 * 2^n`, `50 * 2^n`. */
  lemma DoublingAfterPasses(n: nat)
    ensures Passes(Double, Initial(), n).Keys == {'a' as int, 'b' as int, 'c' as int}
    ensures Passes(Double, Initial(), n)['a' as int] == 10 * Pow2(n)
    ensures Passes(Double, Initial(), n)['b' as int] == 30 * Pow2(n)
    ensures Passes(Double, Initial(), n)['c' as int] == 50 * Pow2(n)
  {
    PassesApplyN(Double, Initial(), n);
    ApplyNDouble('a' as int, 10, n);
    ApplyNDouble('b' as int, 30, n);
    ApplyNDouble('c' as int, 50, n);
  }

  /** `2^n` is at most 8 below four and at least 16 from four on. */
  lemma {:induction false} Pow2Bounds(n: nat)
    ensures n < 4 ==> Pow2(n) <= 8
    ensures n >= 4 ==> Pow2(n) >= 16
  {
    if n > 4 {
      Pow2Bounds(n - 1);
    }
  }

  /** The example's polling loop (`while a < 100`) keeps waiting exactly while fewer than four passes have run. */
  lemma PollingEndsAfterFourPasses(n: nat)
    ensures 'a' as int in Passes(Double, Initial(), n)
    ensures Passes(Double, Initial(), n)['a' as int] < 100 <==> n < 4
  {
    DoublingAfterPasses(n);
    Pow2Bounds(n);
  }

  /**
   The example run, with the background thread's rounds taken one at a time
   while the caller polls: `a` is 160 when the caller stops, still 160 after
   the wait, and 320 after the forced refresh.
   */
  method Run() returns (afterStop: int, afterWait: int, afterSync: int)
    ensures afterStop == 160 && afterWait == 160 && afterSync == 320
  {
    var x := new TargetMap(Initial());
    var mr := new MapRefresher.WithInterval(x, Double, 5000);
    mr.Start();
    var n: nat := 0;
    PollingEndsAfterFourPasses(n);
    while x.entries['a' as int] < 100
      invariant n <= 4
      invariant x.entries == Passes(Double, Initial(), n)
      invariant 'a' as int in x.entries
      invariant x.entries['a' as int] < 100 <==> n < 4
      invariant mr.target == x && mr.updater == Double && mr.isRunning
      decreases 4 - n
    {
      var _, _ := mr.RunnerRound();
      n := n + 1;
      PollingEndsAfterFourPasses(n);
    }
    assert n == 4;
    DoublingAfterPasses(n);
    assert Pow2(4) == 16;
    afterStop := x.entries['a' as int];
    mr.Stop();
    var _, _ := mr.RunnerRound();
    afterWait := x.entries['a' as int];
    ghost var _ := mr.SyncRefreshNow();
    afterSync := x.entries['a' as int];
  }
}

/** The miner schedule: a weighted draw without replacement, the order of slots, and the times of slots. */
module Schedule {
  import Arith
  import opened Floors

  type MinerId = nat
  const ROUND := 25

  // ---- which miner a number picks ----

  function Total(ws: seq<nat>): nat {
    if ws == [] then 0 else Total(ws[..|ws|-1]) + ws[|ws|-1]
  }

  lemma {:induction false} TotalPrefix(ws: seq<nat>, n: nat)
    requires n <= |ws|
    ensures Total(ws[..n]) <= Total(ws)
    decreases |ws|
  {
    if n < |ws| {
      TotalPrefix(ws[..|ws|-1], n);
      assert ws[..|ws|-1][..n] == ws[..n];
    } else {
      assert ws[..n] == ws;
    }
  }

  lemma PrefixOrder(ws: seq<nat>, i: nat, j: nat)
    requires i <= j <= |ws|
    ensures Total(ws[..i]) <= Total(ws[..j])
  {
    TotalPrefix(ws[..j], i);
    assert ws[..j][..i] == ws[..i];
  }

  lemma TotalSnoc(ws: seq<nat>, i: nat)
    requires i < |ws|
    ensures Total(ws[..i + 1]) == Total(ws[..i]) + ws[i]
  {
    assert ws[..i + 1][..i] == ws[..i];
  }

  /** Slot i answers to the numbers from the sum of the weights before it up to, not including, its own end. */
  predicate Answers(ws: seq<nat>, i: nat, value: nat)
    requires i < |ws|
  {
    Total(ws[..i]) <= value < Total(ws[..i + 1])
  }

  /** No two slots answer to one number. */
  lemma AnswersOnce(ws: seq<nat>, i: nat, j: nat, value: nat)
    requires i < |ws| && j < |ws| && Answers(ws, i, value) && Answers(ws, j, value)
    ensures i == j
  {
    if i < j {
      PrefixOrder(ws, i + 1, j);
    } else if j < i {
      PrefixOrder(ws, j + 1, i);
    }
  }

  /**
   * caluate_slot: with a number below the total of the first count weights, the slot is found inside the loop; the
   * fallback answer after it is not used.
   */
  method CalculateSlot(ws: array<nat>, count: nat, value: nat) returns (slot: nat, fallback: bool)
    requires 0 < count <= ws.Length
    ensures slot < count
    ensures value < Total(ws[..count]) ==> !fallback && Answers(ws[..count], slot, value)
    ensures value >= Total(ws[..count]) ==> fallback && slot == count - 1
  {
    var init := 0;
    assert ws[..0] == [];
    for i := 0 to count
      invariant init == Total(ws[..i]) <= value
    {
      TotalSnoc(ws[..count], i);
      assert ws[..count][..i] == ws[..i] && ws[..count][..i + 1] == ws[..i + 1];
      init := init + ws[i];
      if value < init {
        TotalPrefix(ws[..count], i + 1);
        return i, false;
      }
    }
    return count - 1, true;
  }

  /** Exactly as many of the numbers below the total pick a slot as the slot has weight. */
  lemma WeightManyNumbers(ws: seq<nat>, i: nat)
    requires i < |ws|
    ensures |(set v: nat | v < Total(ws) && Answers(ws, i, v))| == ws[i]
  {
    var picked := set v: nat | v < Total(ws) && Answers(ws, i, v);
    TotalSnoc(ws, i);
    TotalPrefix(ws, i + 1);
    Interval(Total(ws[..i]), ws[i]);
    assert picked == set v: nat | v < Total(ws[..i]) + ws[i] && Within(Total(ws[..i]), ws[i], v);
  }

  predicate Within(a: nat, n: nat, v: nat) {
    a <= v < a + n
  }

  lemma {:induction false} Interval(a: nat, n: nat)
    ensures |(set v: nat | v < a + n && Within(a, n, v))| == n
    decreases n
  {
    var s := set v: nat | v < a + n && Within(a, n, v);
    if n == 0 {
      assert s == {};
    } else {
      var m := n - 1;
      Interval(a, m);
      assert s == (set v: nat | v < a + m && Within(a, m, v)) + {a + m};
    }
  }

  // ---- the draw ----

  /** What is left to draw from when slot s is gone: the last one takes its place. */
  function Without<T>(xs: seq<T>, s: nat): (r: seq<T>)
    requires s < |xs|
    ensures |r| == |xs| - 1
  {
    xs[s := xs[|xs| - 1]][..|xs| - 1]
  }

  function {:induction false} SlotOf(ws: seq<nat>, value: nat): (s: nat)
    requires value < Total(ws)
    ensures s < |ws| && Answers(ws, s, value)
    decreases |ws|
  {
    var n := |ws| - 1;
    TotalSnoc(ws, n);
    assert ws[..n + 1] == ws;
    if value >= Total(ws[..n]) then n
    else
      var s := SlotOf(ws[..n], value);
      assert ws[..n][..s] == ws[..s] && ws[..n][..s + 1] == ws[..s + 1];
      s
  }

  predicate Positive(ws: seq<nat>) {
    forall i :: 0 <= i < |ws| ==> ws[i] > 0
  }

  lemma PositiveTotal(ws: seq<nat>)
    requires Positive(ws) && ws != []
    ensures Total(ws) > 0
  {}

  /** The draw by its meaning: pick by weight, take out, go on; rs are the random numbers. */
  function Draw(ids: seq<MinerId>, ws: seq<nat>, rs: seq<nat>): (chosen: seq<MinerId>)
    requires |ids| == |ws| && |rs| <= |ids| && Positive(ws)
    ensures |chosen| == |rs|
    decreases |rs|
  {
    if rs == [] then []
    else
      PositiveTotal(ws);
      var s := SlotOf(ws, rs[0] % Total(ws));
      [ids[s]] + Draw(Without(ids, s), Without(ws, s), rs[1..])
  }

  predicate Distinct<T(==)>(xs: seq<T>) {
    forall i, j :: 0 <= i < j < |xs| ==> xs[i] != xs[j]
  }

  lemma WithoutDistinct<T>(xs: seq<T>, s: nat)
    requires Distinct(xs) && s < |xs|
    ensures Distinct(Without(xs, s)) && forall x :: x in Without(xs, s) <==> x in xs && x != xs[s]
  {
    var r := Without(xs, s);
    forall x ensures x in r <==> x in xs && x != xs[s] {
      if x in xs && x != xs[s] {
        var i :| 0 <= i < |xs| && xs[i] == x;
        assert r[if i == |xs| - 1 then s else i] == x;
      }
      if x in r {
        var i :| 0 <= i < |r| && r[i] == x;
        assert x == xs[if i == s then |xs| - 1 else i];
      }
    }
  }

  /** A round names different miners, all of them candidates. */
  lemma {:induction false} DrawDistinct(ids: seq<MinerId>, ws: seq<nat>, rs: seq<nat>)
    requires |ids| == |ws| && |rs| <= |ids| && Positive(ws) && Distinct(ids)
    ensures Distinct(Draw(ids, ws, rs)) && forall x <- Draw(ids, ws, rs) :: x in ids
    decreases |rs|
  {
    hide Without, SlotOf, Total;
    if rs != [] {
      PositiveTotal(ws);
      var s := SlotOf(ws, rs[0] % Total(ws));
      WithoutPositive(ws, s);
      WithoutDistinct(ids, s);
      DrawDistinct(Without(ids, s), Without(ws, s), rs[1..]);
      var rest := Draw(Without(ids, s), Without(ws, s), rs[1..]);
      FirstDiffers(ids[s], rest);
    }
  }

  lemma FirstDiffers(x: MinerId, rest: seq<MinerId>)
    requires Distinct(rest) && x !in rest
    ensures Distinct([x] + rest)
  {}

  lemma WithoutPositive(ws: seq<nat>, s: nat)
    requires Positive(ws) && s < |ws|
    ensures Positive(Without(ws, s))
  {}

  /** Taking slot s out takes exactly its weight out of the total. */
  lemma {:induction false} WithoutTotal(ws: seq<nat>, s: nat)
    requires s < |ws|
    ensures Total(Without(ws, s)) == Total(ws) - ws[s]
  {
    var n := |ws| - 1;
    if s < n {
      TotalUpdate(ws[..n], s, ws[n]);
      assert Without(ws, s) == ws[..n][s := ws[n]];
    } else {
      assert Without(ws, s) == ws[..n];
    }
  }

  lemma {:induction false} TotalUpdate(ws: seq<nat>, s: nat, w: nat)
    requires s < |ws|
    ensures Total(ws[s := w]) == Total(ws) - ws[s] + w
    decreases |ws|
  {
    var n := |ws| - 1;
    if s < n {
      TotalUpdate(ws[..n], s, w);
      assert ws[s := w][..n] == ws[..n][s := w];
    } else {
      assert ws[s := w][..n] == ws[..n];
    }
  }

  /** The draw of update_miner_schedule, by swaps in the two arrays; rs are the successive hash values. */
  method DrawInPlace(ids: array<MinerId>, ws: array<nat>, rs: seq<nat>) returns (chosen: seq<MinerId>)
    requires ids != ws as object && ids.Length == ws.Length >= |rs| && Positive(ws[..])
    modifies ids, ws
    ensures chosen == Draw(old(ids[..]), old(ws[..]), rs)
  {
    hide Draw, Total, Without, SlotOf, Answers;
    chosen := [];
    var n := ids.Length;
    var total := SumOf(ws);
    assert ids[..n] == ids[..] && ws[..n] == ws[..] && rs[0..] == rs;
    assert [] + Draw(ids[..n], ws[..n], rs) == Draw(ids[..n], ws[..n], rs);
    for i := 0 to |rs|
      invariant Positive(ws[..n - i]) && total == Total(ws[..n - i])
      invariant chosen + Draw(ids[..n - i], ws[..n - i], rs[i..]) == Draw(old(ids[..]), old(ws[..]), rs)
    {
      PositiveTotal(ws[..n - i]);
      var slot, fallback := CalculateSlot(ws, n - i, rs[i] % total);
      assert !fallback;
      DrawStep(ids[..n - i], ws[..n - i], rs[i..], slot);
      WithoutTotal(ws[..n - i], slot);
      WithoutPositive(ws[..n - i], slot);
      chosen := chosen + [ids[slot]];
      total := total - ws[slot];
      SwapOut(ids, slot, n - 1 - i);
      SwapOut(ws, slot, n - 1 - i);
      assert rs[i..][1..] == rs[i + 1..];
    }
    DrawNone(ids[..n - |rs|], ws[..n - |rs|]);
    assert rs[|rs|..] == [];
  }

  lemma DrawNone(ids: seq<MinerId>, ws: seq<nat>)
    requires |ids| == |ws| && Positive(ws)
    ensures Draw(ids, ws, []) == []
  {}

  /** One draw: whatever slot answers to the number is the one. */
  lemma DrawStep(ids: seq<MinerId>, ws: seq<nat>, rs: seq<nat>, s: nat)
    requires |ids| == |ws| && 0 < |rs| <= |ids| && Positive(ws) && s < |ws| && Total(ws) > 0
    requires Answers(ws, s, rs[0] % Total(ws))
    ensures Positive(Without(ws, s))
    ensures Draw(ids, ws, rs) == [ids[s]] + Draw(Without(ids, s), Without(ws, s), rs[1..])
  {
    hide Total, Without, Answers;
    WithoutPositive(ws, s);
    AnswersOnce(ws, s, SlotOf(ws, rs[0] % Total(ws)), rs[0] % Total(ws));
  }

  method SumOf(ws: array<nat>) returns (total: nat)
    ensures total == Total(ws[..])
  {
    total := 0;
    assert ws[..0] == [];
    for i := 0 to ws.Length
      invariant total == Total(ws[..i])
    {
      TotalSnoc(ws[..], i);
      assert ws[..][..i] == ws[..i] && ws[..][..i + 1] == ws[..i + 1];
      total := total + ws[i];
    }
    assert ws[..ws.Length] == ws[..];
  }

  method SwapOut<T>(xs: array<T>, slot: nat, last: nat)
    requires slot <= last < xs.Length
    modifies xs
    ensures xs[..last] == Without(old(xs[..last + 1]), slot)
  {
    xs[slot], xs[last] := xs[last], xs[slot];
  }

  // ---- a round ----

  function Unblocked(active: seq<MinerId>, blocked: set<MinerId>): (r: seq<MinerId>)
    ensures forall x :: x in r <==> x in active && x !in blocked
  {
    if active == [] then []
    else
      var init, last := active[..|active|-1], active[|active|-1];
      if last in blocked then Unblocked(init, blocked) else Unblocked(init, blocked) + [last]
  }

  lemma {:induction false} UnblockedDistinct(active: seq<MinerId>, blocked: set<MinerId>)
    requires Distinct(active)
    ensures Distinct(Unblocked(active, blocked))
    decreases |active|
  {
    if active != [] {
      UnblockedDistinct(active[..|active|-1], blocked);
    }
  }

  /** The weight of a candidate: its pledge, cut by its participation rate in percent. */
  function Weight(pledge: nat, rate: nat): nat {
    pledge * rate / 100
  }

  lemma WeightExact(pledge: nat, rate: nat)
    ensures WithinOneUnit(Weight(pledge, rate), pledge, rate, 100)
  {
    FloorOf(pledge, rate, 100);
  }

  /** A greater pledge at the same rate never weighs less. */
  lemma WeightMono(pledge: nat, more: nat, rate: nat)
    requires pledge <= more
    ensures Weight(pledge, rate) <= Weight(more, rate)
  {
    FloorMono(pledge, more, rate, 100);
  }

  /** A miner that takes part at all has weight, because a pledge is never below 100. */
  lemma WeightPositive(pledge: nat, rate: nat)
    requires pledge >= 100
    ensures Weight(pledge, rate) > 0 <==> rate > 0
  {
    if rate > 0 {
      Arith.MulMono(100, pledge, rate);
    }
  }

  function Weights(ids: seq<MinerId>, pledge: MinerId -> nat, rate: MinerId -> nat): seq<nat> {
    seq(|ids|, i requires 0 <= i < |ids| => Weight(pledge(ids[i]), rate(ids[i])))
  }

  /**
   * The schedule part of update_miner_schedule. With a round's worth of unblocked miners that take part, the round
   * is drawn by weight from the unblocked miners and names each at most once.
   */
  method UpdateSchedule(active: seq<MinerId>, blocked: set<MinerId>, pledge: MinerId -> nat, rate: MinerId -> nat,
                        rs: seq<nat>)
    returns (shuffled: seq<MinerId>)
    requires |rs| == ROUND <= |Unblocked(active, blocked)| && Distinct(active)
    requires forall m <- active :: m !in blocked ==> pledge(m) >= 100 && rate(m) > 0
    ensures |shuffled| == ROUND && Distinct(shuffled)
    ensures forall m <- shuffled :: m in active && m !in blocked
    ensures var ids := Unblocked(active, blocked);
      Positive(Weights(ids, pledge, rate)) && shuffled == Draw(ids, Weights(ids, pledge, rate), rs)
  {
    hide Draw, Weight;
    var names, weights := [], [];
    for i := 0 to |active|
      invariant names == Unblocked(active[..i], blocked) && weights == Weights(names, pledge, rate)
    {
      assert active[..i + 1][..i] == active[..i];
      if active[i] !in blocked {
        names, weights := names + [active[i]], weights + [Weight(pledge(active[i]), rate(active[i]))];
      }
    }
    assert active[..|active|] == active;
    forall i | 0 <= i < |weights| ensures weights[i] > 0 {
      assert names[i] in names;
      WeightPositive(pledge(names[i]), rate(names[i]));
    }
    UnblockedDistinct(active, blocked);
    DrawDistinct(names, weights, rs);
    var ids := new MinerId[|names|](i requires 0 <= i < |names| => names[i]);
    var ws := new nat[|names|](i requires 0 <= i < |names| => weights[i]);
    assert ids[..] == names && ws[..] == weights;
    shuffled := DrawInPlace(ids, ws, rs);
  }

  /** get_scheduled_miner. */
  function Scheduled(shuffled: seq<MinerId>, aslot: nat, slot: nat): MinerId
    requires |shuffled| == ROUND
  {
    shuffled[(aslot + slot) % ROUND]
  }

  /** Any full round of consecutive slots names every miner of the schedule exactly once. */
  lemma RoundNamesEach(shuffled: seq<MinerId>, aslot: nat, first: nat, m: MinerId) returns (slot: nat)
    requires |shuffled| == ROUND && Distinct(shuffled) && m in shuffled
    ensures first <= slot < first + ROUND && Scheduled(shuffled, aslot, slot) == m
    ensures forall k :: first <= k < first + ROUND && Scheduled(shuffled, aslot, k) == m ==> k == slot
  {
    var j :| 0 <= j < ROUND && shuffled[j] == m;
    slot := first + (j + ROUND - (aslot + first) % ROUND) % ROUND;
    assert (aslot + slot) % ROUND == j;
    forall k | first <= k < first + ROUND && Scheduled(shuffled, aslot, k) == m ensures k == slot {
      assert (aslot + k) % ROUND == j;
    }
  }

  // ---- slot times ----

  /**
   * What slot times depend on: interval, head time and number, and the slots skipped after maintenance or a bonus
   * block.
   */
  datatype Clock = Clock(interval: nat, headTime: nat, headNum: nat, maintenance: bool, bonus: bool, skip: nat)

  function Skipped(c: Clock): nat {
    (if c.maintenance then c.skip else 0) + (if c.bonus then c.skip else 0)
  }

  /** get_slot_time. */
  function SlotTime(c: Clock, slot: nat): nat
    requires c.interval > 0
  {
    if slot == 0 then 0
    else if c.headNum == 0 then c.headTime + slot * c.interval
    else c.headTime / c.interval * c.interval + (slot + Skipped(c)) * c.interval
  }

  /** get_slot_at_time. */
  function SlotAtTime(c: Clock, when: nat): nat
    requires c.interval > 0
  {
    if when < SlotTime(c, 1) then 0 else (when - SlotTime(c, 1)) / c.interval + 1
  }

  lemma SlotSpacing(c: Clock, slot: nat)
    requires c.interval > 0 && slot >= 1
    ensures SlotTime(c, slot) == SlotTime(c, 1) + (slot - 1) * c.interval
  {
    assert slot * c.interval == c.interval + (slot - 1) * c.interval;
    assert (slot + Skipped(c)) * c.interval == (1 + Skipped(c)) * c.interval + (slot - 1) * c.interval;
  }

  /** The slot at a slot's time is that slot; every time from the first slot on lies in exactly one slot. */
  lemma SlotAtSlotTime(c: Clock, slot: nat)
    requires c.interval > 0 && slot >= 1
    ensures SlotAtTime(c, SlotTime(c, slot)) == slot
  {
    SlotSpacing(c, slot);
    Arith.DivModUnique((slot - 1) * c.interval, c.interval, slot - 1, 0);
  }

  lemma TimeWithinSlot(c: Clock, when: nat)
    requires c.interval > 0
    ensures SlotAtTime(c, when) == 0 <==> when < SlotTime(c, 1)
    ensures SlotAtTime(c, when) > 0 ==> SlotTime(c, SlotAtTime(c, when)) <= when < SlotTime(c, SlotAtTime(c, when) + 1)
  {
    if when >= SlotTime(c, 1) {
      var slot := SlotAtTime(c, when);
      SlotSpacing(c, slot);
      SlotSpacing(c, slot + 1);
      var d := when - SlotTime(c, 1);
      assert d == d / c.interval * c.interval + d % c.interval;
      assert slot * c.interval == (slot - 1) * c.interval + c.interval;
    }
  }
}

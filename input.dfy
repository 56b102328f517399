/** The calls the command books make on the input driver, recorded as a trace of events. */
module Input {

  /** A symbolic key name, such as "left", "space" or "f1". */
  type Key = string

  /** A hold or release time of a key press; `DriverDefault` when the caller leaves it unset. */
  datatype Timing = DriverDefault | Secs(secs: real)

  datatype Event =
    | Press(key: Key, times: int, down: Timing, up: Timing)  // press(key, times, down_time, up_time)
    | KeyDown(key: Key)                                      // key_down(key)
    | KeyUp(key: Key)                                        // key_up(key)
    | Sleep(secs: real)                                      // time.sleep(secs)

  /** A press with the driver's default timings. */
  function Tap(key: Key, times: int): Event {
    Press(key, times, DriverDefault, DriverDefault)
  }

  /** An event that neither holds nor releases a key. */
  predicate Neutral(e: Event) {
    e.Press? || e.Sleep?
  }

  /** The keys held after event `e`, when `held` were held before it. */
  function Apply(held: set<Key>, e: Event): (h: set<Key>)
    ensures e.KeyDown? ==> h == held + {e.key}
    ensures e.KeyUp? ==> h == held - {e.key}
    ensures Neutral(e) ==> h == held
  {
    match e
    case KeyDown(k) => held + {k}
    case KeyUp(k) => held - {k}
    case _ => held
  }

  /** The keys held after the whole trace `t`, when `held` were held before it. */
  function Held(held: set<Key>, t: seq<Event>): set<Key>
    decreases |t|
  {
    if t == [] then held else Held(Apply(held, t[0]), t[1..])
  }

  /** How many presses of `key` the trace `t` requests from the driver: the sum of the counts
      of its press events for `key`, taken as given, so a negative count subtracts. */
  function Presses(t: seq<Event>, key: Key): int
    decreases |t|
  {
    if t == [] then 0
    else (if t[0].Press? && t[0].key == key then t[0].times else 0) + Presses(t[1..], key)
  }

  /** `n` copies of `e`. */
  function Repeat(e: Event, n: nat): (t: seq<Event>)
    ensures |t| == n
    ensures forall i :: 0 <= i < n ==> t[i] == e
  {
    if n == 0 then [] else Repeat(e, n - 1) + [e]
  }

  lemma {:induction false} HeldAppend(held: set<Key>, a: seq<Event>, b: seq<Event>)
    ensures Held(held, a + b) == Held(Held(held, a), b)
    decreases |a|
  {
    if a != [] {
      assert (a + b)[1..] == a[1..] + b;
      HeldAppend(Apply(held, a[0]), a[1..], b);
    } else {
      assert a + b == b;
    }
  }

  /** A trace of presses and sleeps leaves the held keys as they were. */
  lemma {:induction false} HeldNeutral(held: set<Key>, t: seq<Event>)
    requires forall i :: 0 <= i < |t| ==> Neutral(t[i])
    ensures Held(held, t) == held
    decreases |t|
  {
    if t != [] {
      HeldNeutral(held, t[1..]);
    }
  }

  lemma {:induction false} PressesAppend(a: seq<Event>, b: seq<Event>, key: Key)
    ensures Presses(a + b, key) == Presses(a, key) + Presses(b, key)
    decreases |a|
  {
    if a != [] {
      assert (a + b)[1..] == a[1..] + b;
      PressesAppend(a[1..], b, key);
    } else {
      assert a + b == b;
    }
  }

  /** Repeating a press `n` times presses its key `n` times as often. */
  lemma {:induction false} PressesRepeat(e: Event, n: nat, key: Key)
    requires e.Press?
    ensures Presses(Repeat(e, n), key) == n * (if e.key == key then e.times else 0)
    decreases n
  {
    if n > 0 {
      PressesRepeat(e, n - 1, key);
      PressesAppend(Repeat(e, n - 1), [e], key);
      assert Presses([e], key) == (if e.key == key then e.times else 0);
    }
  }

  lemma PressesSingle(e: Event, key: Key)
    ensures Presses([e], key) == if e.Press? && e.key == key then e.times else 0
  {
  }

  lemma PressesSplit(a: seq<Event>, b: seq<Event>, c: seq<Event>, key: Key)
    ensures Presses(a + b + c, key) == Presses(a, key) + Presses(b, key) + Presses(c, key)
  {
    PressesAppend(a + b, c, key);
    PressesAppend(a, b, key);
  }

  /** Holding a key over presses and sleeps and then releasing it leaves that key released. */
  lemma HeldBracket(held: set<Key>, k: Key, middle: seq<Event>)
    requires forall i :: 0 <= i < |middle| ==> Neutral(middle[i])
    ensures Held(held, [KeyDown(k)] + middle + [KeyUp(k)]) == held - {k}
  {
    HeldAppend(held, [KeyDown(k)] + middle, [KeyUp(k)]);
    HeldAppend(held, [KeyDown(k)], middle);
    assert Held(held, [KeyDown(k)]) == held + {k} by {
      assert [KeyDown(k)][1..] == [];
    }
    HeldNeutral(held + {k}, middle);
    assert [KeyUp(k)][1..] == [];
  }

  /** Between presses and sleeps, a trace holding and releasing `k` once holds and releases
      it exactly once and no other key. */
  lemma BracketKeys(before: seq<Event>, k: Key, middle: seq<Event>)
    requires forall i :: 0 <= i < |before| ==> Neutral(before[i])
    requires forall i :: 0 <= i < |middle| ==> Neutral(middle[i])
    ensures var t := before + [KeyDown(k)] + middle + [KeyUp(k)];
            && multiset(t)[KeyDown(k)] == 1
            && multiset(t)[KeyUp(k)] == 1
            && forall i :: 0 <= i < |t| && (t[i].KeyDown? || t[i].KeyUp?) ==> t[i].key == k
  {
  }
}

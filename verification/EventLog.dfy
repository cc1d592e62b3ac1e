/**
 * The event recorder's flap guard: a bounded, recency-ordered map of the keys stored lately, which
 * suppresses a key stored less than one window ago.
 */
module EventLog {
  import opened Common

  /** `(type, service, reason, build version)`. */
  type Key = (string, Option<string>, Option<string>, Option<nat>)
  type Time = nat

  datatype Stamp = Stamp(key: Key, time: Time)

  const MAX_RECENT := 512

  // --- the map as a function of what was stored ----------------------------------------------------

  function Keys(stamps: seq<Stamp>): set<Key> {
    set s <- stamps :: s.key
  }

  predicate Distinct(stamps: seq<Stamp>) {
    forall i, j :: 0 <= i < j < |stamps| ==> stamps[i].key != stamps[j].key
  }

  function Without(stamps: seq<Stamp>, key: Key): (r: seq<Stamp>)
    ensures key !in Keys(r) && forall s <- r :: s in stamps
  {
    if stamps == [] then []
    else if stamps[0].key == key then Without(stamps[1..], key)
    else [stamps[0]] + Without(stamps[1..], key)
  }

  function Last(stamps: seq<Stamp>, n: nat): seq<Stamp> {
    if |stamps| > n then stamps[|stamps| - n..] else stamps
  }

  /** Stamp `s`: to the newest end, and the oldest out past the bound. */
  function Touch(recent: seq<Stamp>, s: Stamp): seq<Stamp> {
    Last(Without(recent, s.key) + [s], MAX_RECENT)
  }

  /** The map after the coalescible rows of `stored`, oldest first. */
  function Recent(stored: seq<Stamp>): seq<Stamp>
    decreases |stored|
  {
    if stored == [] then [] else Touch(Recent(stored[..|stored| - 1]), stored[|stored| - 1])
  }

  predicate Suppressed(recent: seq<Stamp>, key: Key, now: Time, window: nat) {
    exists s <- recent :: s.key == key && now < s.time + window
  }

  // --- what the map holds ----------------------------------------------------------------------------

  lemma {:induction false} WithoutKeepsOrder(stamps: seq<Stamp>, key: Key)
    requires Distinct(stamps)
    ensures Distinct(Without(stamps, key))
    ensures Keys(Without(stamps, key)) == Keys(stamps) - {key}
    decreases |stamps|
  {
    if stamps != [] {
      var rest := Without(stamps[1..], key);
      WithoutKeepsOrder(stamps[1..], key);
      assert Keys(stamps) == {stamps[0].key} + Keys(stamps[1..]);
      if stamps[0].key != key {
        forall s | s in rest
          ensures s.key != stamps[0].key
        {
          assert s in stamps[1..];
        }
        assert Keys([stamps[0]] + rest) == {stamps[0].key} + Keys(rest);
      } else {
        assert key !in Keys(stamps[1..]) by {
          forall s | s in stamps[1..]
            ensures s.key != key
          {
            var j :| 1 <= j < |stamps| && stamps[j] == s;
          }
        }
      }
    }
  }

  lemma {:induction false} WithoutSplits(a: seq<Stamp>, b: seq<Stamp>, key: Key)
    ensures Without(a + b, key) == Without(a, key) + Without(b, key)
    decreases |a|
  {
    if a == [] {
      assert a + b == b;
    } else {
      assert (a + b)[1..] == a[1..] + b;
      WithoutSplits(a[1..], b, key);
    }
  }

  lemma {:induction false} WithoutNothing(stamps: seq<Stamp>, key: Key)
    requires key !in Keys(stamps)
    ensures Without(stamps, key) == stamps
    decreases |stamps|
  {
    if stamps != [] {
      assert stamps[0] in stamps && Keys(stamps[1..]) <= Keys(stamps);
      WithoutNothing(stamps[1..], key);
      assert stamps == [stamps[0]] + stamps[1..];
    }
  }

  lemma {:induction false} DistinctSize(stamps: seq<Stamp>)
    requires Distinct(stamps)
    ensures |Keys(stamps)| == |stamps|
    decreases |stamps|
  {
    if stamps != [] {
      DistinctSize(stamps[1..]);
      assert Keys(stamps) == {stamps[0].key} + Keys(stamps[1..]);
      assert stamps[0].key !in Keys(stamps[1..]) by {
        forall s | s in stamps[1..]
          ensures s.key != stamps[0].key
        {
          var j :| 1 <= j < |stamps| && stamps[j] == s;
        }
      }
    }
  }

  lemma TouchIsDistinct(recent: seq<Stamp>, s: Stamp)
    requires Distinct(recent)
    ensures Distinct(Touch(recent, s)) && |Touch(recent, s)| <= MAX_RECENT
  {
    WithoutKeepsOrder(recent, s.key);
    var grown := Without(recent, s.key) + [s];
    forall i, j | 0 <= i < j < |grown|
      ensures grown[i].key != grown[j].key
    {
      assert j == |grown| - 1 ==> grown[i] in Without(recent, s.key);
    }
  }

  lemma {:induction false} RecentIsDistinct(stored: seq<Stamp>)
    ensures Distinct(Recent(stored)) && |Recent(stored)| <= MAX_RECENT
    decreases |stored|
  {
    if stored != [] {
      RecentIsDistinct(stored[..|stored| - 1]);
      TouchIsDistinct(Recent(stored[..|stored| - 1]), stored[|stored| - 1]);
    }
  }

  /** `key` was stored last by `s`, and behind it in the map stand exactly the keys stored since. */
  ghost predicate StandsBefore(recent: seq<Stamp>, s: Stamp, since: set<Key>) {
    exists pre, post :: recent == pre + [s] + post && Keys(post) == since
  }

  lemma WithoutAround(pre: seq<Stamp>, s: Stamp, post: seq<Stamp>, key: Key)
    requires key != s.key
    ensures Without(pre + [s] + post, key) == Without(pre, key) + [s] + Without(post, key)
  {
    WithoutSplits(pre + [s], post, key);
    WithoutSplits(pre, [s], key);
    assert Without([s], key) == [s];
  }

  lemma LastAround(pre: seq<Stamp>, s: Stamp, post: seq<Stamp>, n: nat) returns (rest: seq<Stamp>)
    requires |post| < n
    ensures Last(pre + [s] + post, n) == rest + [s] + post
  {
    var all := pre + [s] + post;
    if |all| > n {
      var k := |all| - n;
      rest := pre[k..];
      assert all[k..] == pre[k..] + [s] + post;
    } else {
      rest := pre;
    }
  }

  lemma KeysOfOneMore(stamps: seq<Stamp>, t: Stamp)
    ensures Keys(stamps + [t]) == Keys(stamps) + {t.key}
  {
  }

  lemma AppendIsDistinct(stamps: seq<Stamp>, t: Stamp)
    requires Distinct(stamps) && t.key !in Keys(stamps)
    ensures Distinct(stamps + [t])
  {
    var grown := stamps + [t];
    forall i, j | 0 <= i < j < |grown|
      ensures grown[i].key != grown[j].key
    {
      assert grown[i] in stamps;
    }
  }

  /** The map around `s` once `t` is stored: what was behind `s` with `t`'s key moved to the end. */
  lemma TouchAround(pre: seq<Stamp>, s: Stamp, post: seq<Stamp>, t: Stamp)
    requires t.key != s.key
    ensures var newer := Without(post, t.key) + [t];
      |newer| < MAX_RECENT ==> StandsBefore(Touch(pre + [s] + post, t), s, Keys(newer))
  {
    var older, newer := Without(pre, t.key), Without(post, t.key) + [t];
    WithoutAround(pre, s, post, t.key);
    assert Without(pre + [s] + post, t.key) + [t] == older + [s] + newer;
    if |newer| < MAX_RECENT {
      var rest := LastAround(older, s, newer, MAX_RECENT);
      assert Touch(pre + [s] + post, t) == rest + [s] + newer;
    }
  }

  lemma NewerKeys(post: seq<Stamp>, t: Stamp)
    requires Distinct(post)
    ensures var newer := Without(post, t.key) + [t];
      Keys(newer) == Keys(post) + {t.key} && |newer| == |Keys(newer)|
  {
    WithoutKeepsOrder(post, t.key);
    KeysOfOneMore(Without(post, t.key), t);
    AppendIsDistinct(Without(post, t.key), t);
    DistinctSize(Without(post, t.key) + [t]);
  }

  lemma TouchMovesOn(recent: seq<Stamp>, s: Stamp, since: set<Key>, t: Stamp)
    requires Distinct(recent) && StandsBefore(recent, s, since) && t.key != s.key
    ensures StandsBefore(Touch(recent, t), s, since + {t.key}) || |since + {t.key}| >= MAX_RECENT
  {
    var pre, post :| recent == pre + [s] + post && Keys(post) == since;
    PostIsDistinct(pre + [s], post);
    NewerKeys(post, t);
    TouchAround(pre, s, post, t);
  }

  lemma PostIsDistinct(pre: seq<Stamp>, post: seq<Stamp>)
    requires Distinct(pre + post)
    ensures Distinct(post)
  {
    forall i, j | 0 <= i < j < |post|
      ensures post[i].key != post[j].key
    {
      assert (pre + post)[|pre| + i] == post[i] && (pre + post)[|pre| + j] == post[j];
    }
  }

  lemma RecentOneMore(stored: seq<Stamp>, t: Stamp)
    ensures Recent(stored + [t]) == Touch(Recent(stored), t)
  {
    assert (stored + [t])[..|stored + [t]| - 1] == stored;
  }

  lemma JustStored(recent: seq<Stamp>, s: Stamp)
    ensures StandsBefore(Touch(recent, s), s, {})
  {
    var older := Without(recent, s.key);
    var rest := LastAround(older, s, [], MAX_RECENT);
    assert older + [s] + [] == older + [s];
    assert Keys([]) == {};
    assert Touch(recent, s) == rest + [s] + [];
  }

  /**
   * After `s` was stored and then `since`, without its key: either it stands in the map with exactly
   * the keys of `since` behind it, or `since` holds at least 512 different keys.
   */
  lemma {:induction false} LastingOrEvicted(before: seq<Stamp>, s: Stamp, since: seq<Stamp>)
    requires s.key !in Keys(since)
    ensures StandsBefore(Recent(before + [s] + since), s, Keys(since)) || |Keys(since)| >= MAX_RECENT
    decreases |since|
  {
    if since == [] {
      assert before + [s] + since == before + [s];
      RecentOneMore(before, s);
      JustStored(Recent(before), s);
      assert Keys(since) == {};
    } else {
      var t, earlier := since[|since| - 1], since[..|since| - 1];
      var stored := before + [s] + earlier;
      assert since == earlier + [t] && before + [s] + since == stored + [t];
      KeysOfOneMore(earlier, t);
      LastingOrEvicted(before, s, earlier);
      RecentIsDistinct(stored);
      RecentOneMore(stored, t);
      if |Keys(earlier)| >= MAX_RECENT {
        MoreKeys(Keys(earlier), Keys(since));
      } else {
        TouchMovesOn(Recent(stored), s, Keys(earlier), t);
      }
    }
  }

  lemma MoreKeys(a: set<Key>, b: set<Key>)
    requires a <= b
    ensures |a| <= |b|
  {
    assert b == a + (b - a) && |b| == |a| + |b - a|;
  }

  /** In a history the recorder can produce, no stored row's key was suppressed when it was stored. */
  predicate Recorded(stored: seq<Stamp>, window: nat) {
    && (forall i, j :: 0 <= i < j < |stored| ==> stored[i].time <= stored[j].time)
    && (forall j :: 0 <= j < |stored| ==> !Suppressed(Recent(stored[..j]), stored[j].key, stored[j].time, window))
  }

  /** The last row before `j` with the key of row `i`. */
  function LastBefore(stored: seq<Stamp>, i: nat, j: nat): (k: nat)
    requires i < j <= |stored|
    ensures i <= k < j && stored[k].key == stored[i].key
    ensures forall m :: k < m < j ==> stored[m].key != stored[i].key
  {
    if stored[j - 1].key == stored[i].key then j - 1 else LastBefore(stored, i, j - 1)
  }

  /**
   * Two stored rows of one coalescible key less than a window apart have at least 512 different other
   * keys stored between them: only an overflowing map lets a flap through.
   */
  lemma FlapsNeedAnOverflow(stored: seq<Stamp>, window: nat, i: nat, j: nat)
    requires Recorded(stored, window) && i < j < |stored|
    requires stored[i].key == stored[j].key && stored[j].time < stored[i].time + window
    ensures |Keys(stored[i + 1..j]) - {stored[i].key}| >= MAX_RECENT
  {
    var k := LastBefore(stored, i, j);
    assert !Suppressed(Recent(stored[..j]), stored[j].key, stored[j].time, window);
    EvictedSince(stored, window, k, j);
    KeysGrow(stored, i, k, j);
    MoreKeys(Keys(stored[k + 1..j]), Keys(stored[i + 1..j]) - {stored[i].key});
  }

  lemma KeysGrow(stored: seq<Stamp>, i: nat, k: nat, j: nat)
    requires i <= k < j <= |stored| && stored[k].key == stored[i].key
    requires forall m :: k < m < j ==> stored[m].key != stored[i].key
    ensures Keys(stored[k + 1..j]) <= Keys(stored[i + 1..j]) - {stored[i].key}
    ensures stored[k].key !in Keys(stored[k + 1..j])
  {
    forall t | t in stored[k + 1..j]
      ensures t in stored[i + 1..j] && t.key != stored[i].key
    {
      var m :| 0 <= m < |stored[k + 1..j]| && stored[k + 1..j][m] == t;
      assert stored[k + 1 + m] == t && stored[i + 1..j][k - i + m] == t;
    }
  }

  /** A key that is stored again within the window, and not suppressed, is no longer in the map. */
  lemma EvictedSince(stored: seq<Stamp>, window: nat, k: nat, j: nat)
    requires k < j < |stored| && stored[k].key == stored[j].key && stored[j].time < stored[k].time + window
    requires forall m :: k < m < j ==> stored[m].key != stored[k].key
    requires !Suppressed(Recent(stored[..j]), stored[j].key, stored[j].time, window)
    ensures |Keys(stored[k + 1..j])| >= MAX_RECENT
  {
    var s, since := stored[k], stored[k + 1..j];
    assert stored[..j] == stored[..k] + [s] + since;
    KeysGrow(stored, k, k, j);
    LastingOrEvicted(stored[..k], s, since);
    if StandsBefore(Recent(stored[..j]), s, Keys(since)) {
      StandsInside(Recent(stored[..j]), s, Keys(since));
    }
  }

  lemma StandsInside(recent: seq<Stamp>, s: Stamp, since: set<Key>)
    requires StandsBefore(recent, s, since)
    ensures s in recent
  {
    var pre, post :| recent == pre + [s] + post && Keys(post) == since;
    assert recent[|pre|] == s;
  }

  // --- the recorder --------------------------------------------------------------------------------

  class EventRecorder {
    const window: nat
    var recent: seq<Stamp>
    /** The coalescible rows stored so far. */
    ghost var stored: seq<Stamp>

    ghost predicate Valid()
      reads this
    {
      Recorded(stored, window) && recent == Recent(stored)
    }

    constructor (window: nat)
      ensures this.window == window && stored == [] && Valid()
    {
      this.window := window;
      recent, stored := [], [];
    }

    method IsSuppressed(key: Key, now: Time) returns (suppressed: bool)
      ensures suppressed == Suppressed(recent, key, now, window)
    {
      for i := 0 to |recent|
        invariant forall s <- recent[..i] :: !(s.key == key && now < s.time + window)
      {
        if recent[i].key == key && now < recent[i].time + window {
          return true;
        }
        assert recent[..i + 1] == recent[..i] + [recent[i]];
      }
      assert recent[..|recent|] == recent;
      return false;
    }

    /** To the newest end; past the bound the oldest goes. */
    method Commit(key: Key, now: Time)
      modifies this`recent
      ensures recent == Touch(old(recent), Stamp(key, now))
    {
      recent := Without(recent, key) + [Stamp(key, now)];
      ghost var grown := recent;
      while |recent| > MAX_RECENT
        invariant |recent| <= |grown| && recent == grown[|grown| - |recent|..]
        invariant |grown| > MAX_RECENT ==> |recent| >= MAX_RECENT
        invariant |grown| <= MAX_RECENT ==> recent == grown
        decreases |recent|
      {
        recent := recent[1..];
      }
    }

    /**
     * One record. A key is stamped only once its row exists, so a failed insert suppresses nothing;
     * types that are never coalesced leave the map alone and are always written.
     */
    method Record(key: Key, coalesced: bool, now: Time, insertOk: bool) returns (written: bool)
      requires Valid() && forall s <- stored :: s.time <= now
      modifies this
      ensures Valid()
      ensures written <==> insertOk && !(coalesced && Suppressed(old(recent), key, now, window))
      ensures stored == if written && coalesced then old(stored) + [Stamp(key, now)] else old(stored)
    {
      if coalesced {
        var suppressed := IsSuppressed(key, now);
        if suppressed {
          return false;
        }
      }
      if !insertOk {
        return false;
      }
      if coalesced {
        RecordedOneMore(stored, window, Stamp(key, now));
        Commit(key, now);
        stored := stored + [Stamp(key, now)];
      }
      return true;
    }
  }

  lemma RecordedOneMore(stored: seq<Stamp>, window: nat, s: Stamp)
    requires Recorded(stored, window) && (forall t <- stored :: t.time <= s.time)
    requires !Suppressed(Recent(stored), s.key, s.time, window)
    ensures Recorded(stored + [s], window) && Recent(stored + [s]) == Touch(Recent(stored), s)
  {
    var more := stored + [s];
    assert more[..|more| - 1] == stored;
    forall j | 0 <= j < |more|
      ensures !Suppressed(Recent(more[..j]), more[j].key, more[j].time, window)
    {
      assert more[..j] == stored[..j];
      assert j == |stored| ==> stored[..j] == stored;
    }
  }
}

/** The store key of a send, and when two sends can meet under one key. */
module CacheKey {
  import opened Values
  import T = ClaimTable

  function BuildCacheKey(channel: Channel, idempotencyKey: string): string {
    "idem:" + channel + ":" + idempotencyKey
  }

  /** Channel and idempotency key, read back from a store key: after "idem:", the first ':' ends the channel. */
  function ParseCacheKey(s: string): Option<(Channel, string)> {
    if "idem:" <= s && ':' in s[5..] then
      var i := FirstColon(s[5..]);
      Some((s[5..][..i], s[5..][i + 1..]))
    else None
  }

  function FirstColon(s: string): (i: nat)
    requires ':' in s
    ensures i < |s| && s[i] == ':' && ':' !in s[..i]
  {
    if s[0] == ':' then 0 else
      assert s == [s[0]] + s[1..];
      var i := FirstColon(s[1..]);
      assert s[..i + 1] == [s[0]] + s[1..][..i];
      i + 1
  }

  /** A channel without ':' and any idempotency key are read back from their store key. */
  lemma CacheKeyReadsBack(channel: Channel, idempotencyKey: string)
    requires ':' !in channel
    ensures ParseCacheKey(BuildCacheKey(channel, idempotencyKey)) == Some((channel, idempotencyKey))
  {
    StripIdem(channel, idempotencyKey);
    FirstColonAfter(channel, idempotencyKey);
    var rest := channel + ":" + idempotencyKey;
    assert rest[..|channel|] == channel && rest[|channel| + 1..] == idempotencyKey;
  }

  lemma {:induction false} FirstColonAfter(a: string, b: string)
    requires ':' !in a
    ensures ':' in a + ":" + b && FirstColon(a + ":" + b) == |a|
  {
    var s := a + ":" + b;
    assert s[|a|] == ':';
    if a != "" {
      FirstColonAfter(a[1..], b);
      assert s[0] == a[0] && s[1..] == a[1..] + ":" + b;
    }
  }

  lemma StripIdem(channel: Channel, idempotencyKey: string)
    ensures "idem:" <= BuildCacheKey(channel, idempotencyKey)
    ensures BuildCacheKey(channel, idempotencyKey)[5..] == channel + ":" + idempotencyKey
  {
    assert BuildCacheKey(channel, idempotencyKey) == "idem:" + (channel + ":" + idempotencyKey);
    assert forall s: string :: ("idem:" + s)[5..] == s && "idem:" <= "idem:" + s;
  }

  lemma BuildCacheKeyIsInjective(c1: Channel, k1: string, c2: Channel, k2: string)
    requires ':' !in c1 && ':' !in c2
    requires BuildCacheKey(c1, k1) == BuildCacheKey(c2, k2)
    ensures c1 == c2 && k1 == k2
  {
    CollidingKeys(c1, k1, c2, k2);
    assert (c1 + ":")[|c1|] == ':' && (c2 + ":")[|c2|] == ':';
  }

  lemma StripPrefix(c1: Channel, k1: string, c2: Channel, k2: string)
    ensures BuildCacheKey(c1, k1) == BuildCacheKey(c2, k2) <==> c1 + ":" + k1 == c2 + ":" + k2
  {
    assert BuildCacheKey(c1, k1) == "idem:" + (c1 + ":" + k1);
    assert BuildCacheKey(c2, k2) == "idem:" + (c2 + ":" + k2);
    assert forall s: string :: ("idem:" + s)[5..] == s;
  }

  /** Colliding keys: one channel, followed by the separator, is a prefix of the other. */
  lemma CollidingKeys(c1: Channel, k1: string, c2: Channel, k2: string)
    requires BuildCacheKey(c1, k1) == BuildCacheKey(c2, k2)
    ensures c1 == c2 ==> k1 == k2
    ensures |c1| < |c2| ==> c1 + ":" <= c2 && k1 == c2[|c1| + 1..] + ":" + k2
    ensures |c1| > |c2| ==> c2 + ":" <= c1
    ensures |c1| == |c2| ==> c1 == c2
  {
    StripPrefix(c1, k1, c2, k2);
    var s1, s2 := c1 + ":" + k1, c2 + ":" + k2;
    assert s1 == s2;
    assert s1[..|c1|] == c1 && s1[|c1|] == ':' && s1[|c1| + 1..] == k1;
    assert s2[..|c2|] == c2 && s2[|c2|] == ':' && s2[|c2| + 1..] == k2;
    if |c1| < |c2| {
      assert c2[..|c1|] == s2[..|c1|] && c2[|c1|] == s2[|c1|];
      assert s2 == c1 + ":" + (c2[|c1| + 1..] + ":" + k2);
    } else if |c2| < |c1| {
      assert c1[..|c2|] == s1[..|c2|] && c1[|c2|] == s1[|c2|];
    }
  }

  /** Exactly which pairs of channels can meet: two different channels share a cache key, for some pair
      of idempotency keys, if and only if one of them followed by ':' is a prefix of the other. */
  lemma ChannelsCollide(c1: Channel, c2: Channel)
    requires c1 != c2
    ensures (exists k1, k2 :: BuildCacheKey(c1, k1) == BuildCacheKey(c2, k2)) <==> (c1 + ":" <= c2 || c2 + ":" <= c1)
  {
    forall k1, k2 | BuildCacheKey(c1, k1) == BuildCacheKey(c2, k2)
      ensures c1 + ":" <= c2 || c2 + ":" <= c1
    {
      CollidingKeys(c1, k1, c2, k2);
    }
    if c1 + ":" <= c2 {
      Meet(c1, c2);
    } else if c2 + ":" <= c1 {
      Meet(c2, c1);
    }
  }

  lemma Meet(short: Channel, long: Channel)
    requires short + ":" <= long
    ensures BuildCacheKey(short, long[|short| + 1..] + ":") == BuildCacheKey(long, "")
  {
    StripPrefix(short, long[|short| + 1..] + ":", long, "");
    assert long == short + ":" + long[|short| + 1..];
    assert short + ":" + (long[|short| + 1..] + ":") == long + ":" + "";
  }

  /** Sends for different (channel, idempotency key) pairs share nothing in one store: no operation under one pair's key
      changes what a Reserve or Get under the other's finds, or whether its Finalize is refused. */
  lemma DifferentSendsDoNotMeet(t: T.Table, e: T.Event, c1: Channel, k1: string, c2: Channel, k2: string,
                                token: T.Token, stamp: int, now: int)
    requires ':' !in c1 && ':' !in c2 && (c1, k1) != (c2, k2)
    requires !e.op.OpSweep? && e.op.key == BuildCacheKey(c1, k1)
    ensures var key, after := BuildCacheKey(c2, k2), T.Apply(t, e);
            && T.ReserveAnswerOf(after, key, token, stamp) == T.ReserveAnswerOf(t, key, token, stamp)
            && T.Get(after, key, now) == T.Get(t, key, now)
            && T.Superseded(after, key, token) == T.Superseded(t, key, token)
  {
    if BuildCacheKey(c1, k1) == BuildCacheKey(c2, k2) {
      BuildCacheKeyIsInjective(c1, k1, c2, k2);
    }
    T.OtherKeysUntouched(t, e, BuildCacheKey(c2, k2));
  }
}

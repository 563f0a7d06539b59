/** The hour bucket notifications are grouped under: kept in a key that
    expires, and joined for as long as the group would not outgrow its span. */
module NotificationGroups {
  import opened Basics

  const MAXIMUM_GROUP_SPAN_HOURS: nat := 12
  const HOUR: nat := 3600

  /** The key: a bucket, and when it expires. */
  datatype Stored = Stored(bucket: nat, expiresAt: nat)

  /** What `GET` finds. */
  function Live(key: Option<Stored>, now: nat): Option<nat> {
    if key.Some? && now < key.value.expiresAt then Some(key.value.bucket) else None
  }

  function Bucket(previous: Option<nat>, now: nat): nat {
    if previous.Some? && now / HOUR < previous.value + MAXIMUM_GROUP_SPAN_HOURS then previous.value
    else now / HOUR
  }

  class GroupKey {
    var key: Option<Stored>

    constructor ()
      ensures key == None
    {
      key := None;
    }

    /** `notification_group_key`, but for its prefix. */
    method Join(now: nat) returns (bucket: nat)
      modifies this
      ensures bucket == Bucket(Live(old(key), now), now)
      ensures key == Some(Stored(bucket, now + MAXIMUM_GROUP_SPAN_HOURS * HOUR))
      ensures now < (bucket + MAXIMUM_GROUP_SPAN_HOURS) * HOUR
    {
      bucket := now / HOUR;
      var previous := Live(key, now);
      if previous.Some? {
        if bucket < previous.value + MAXIMUM_GROUP_SPAN_HOURS {
          bucket := previous.value;
        }
      }
      key := Some(Stored(bucket, now + MAXIMUM_GROUP_SPAN_HOURS * HOUR));
    }
  }

  // ── Runs ────────────────────────────────────────────────────────────────

  /** The buckets of notifications at some times, from a key. */
  function Buckets(times: seq<nat>, key: Option<Stored>): seq<nat> {
    if times == [] then []
    else
      var now := times[0];
      var bucket := Bucket(Live(key, now), now);
      [bucket] + Buckets(times[1..], Some(Stored(bucket, now + MAXIMUM_GROUP_SPAN_HOURS * HOUR)))
  }

  /** The same, with a key that never expires. */
  function BucketsKept(times: seq<nat>, previous: Option<nat>): seq<nat> {
    if times == [] then []
    else
      var bucket := Bucket(previous, times[0]);
      [bucket] + BucketsKept(times[1..], Some(bucket))
  }

  ghost predicate InOrder(times: seq<nat>) {
    forall i, j :: 0 <= i <= j < |times| ==> times[i] <= times[j]
  }

  /** A key set at some time not after `times`. */
  ghost predicate SetBefore(key: Option<Stored>, times: seq<nat>) {
    key.Some? ==>
      && MAXIMUM_GROUP_SPAN_HOURS * HOUR <= key.value.expiresAt
      && key.value.bucket * HOUR + MAXIMUM_GROUP_SPAN_HOURS * HOUR <= key.value.expiresAt
      && forall i :: 0 <= i < |times| ==> key.value.expiresAt <= times[i] + MAXIMUM_GROUP_SPAN_HOURS * HOUR
  }

  function Previous(key: Option<Stored>): Option<nat> {
    if key.Some? then Some(key.value.bucket) else None
  }

  /** The key expires only once it would not have been joined anyway. */
  lemma {:induction false} ExpiryChangesNothing(times: seq<nat>, key: Option<Stored>)
    requires InOrder(times) && SetBefore(key, times)
    ensures Buckets(times, key) == BucketsKept(times, Previous(key))
    decreases |times|
  {
    if times != [] {
      var now := times[0];
      var bucket := Bucket(Live(key, now), now);
      if key.Some? && key.value.expiresAt <= now {
        assert (key.value.bucket + MAXIMUM_GROUP_SPAN_HOURS) * HOUR <= now;
      }
      assert bucket * HOUR <= now by {
        BucketStarted(key, now);
      }
      ExpiryChangesNothing(times[1..], Some(Stored(bucket, now + MAXIMUM_GROUP_SPAN_HOURS * HOUR)));
    }
  }

  lemma BucketStarted(key: Option<Stored>, now: nat)
    requires key.Some? ==>
      && (key.value.bucket + MAXIMUM_GROUP_SPAN_HOURS) * HOUR <= key.value.expiresAt
      && key.value.expiresAt <= now + MAXIMUM_GROUP_SPAN_HOURS * HOUR
    ensures Bucket(Live(key, now), now) * HOUR <= now
  {
  }

  /** From one notification to the next, the group goes on, or a new one starts
      at least a whole span of hours later, at its own first hour. */
  ghost predicate Grouped(times: seq<nat>, buckets: seq<nat>) {
    && |buckets| == |times|
    && (forall i :: 0 <= i < |times| ==>
          buckets[i] * 3600 <= times[i] < (buckets[i] + 12) * 3600)
    && (forall i :: 0 <= i < |times| - 1 ==>
          || buckets[i + 1] == buckets[i]
          || (buckets[i] + 12 <= buckets[i + 1] && buckets[i + 1] == times[i + 1] / 3600))
  }

  lemma {:induction false} KeptGroup(times: seq<nat>, previous: Option<nat>)
    requires InOrder(times)
    requires previous.Some? ==> forall i :: 0 <= i < |times| ==> previous.value * HOUR <= times[i]
    ensures Grouped(times, BucketsKept(times, previous))
    ensures times != [] ==> BucketsKept(times, previous)[0] == Bucket(previous, times[0])
    decreases |times|
  {
    if times != [] {
      var bucket, rest := Bucket(previous, times[0]), times[1..];
      assert bucket * HOUR <= times[0];
      forall i | 0 <= i < |rest| ensures bucket * HOUR <= rest[i] {
        assert times[0] <= times[i + 1];
      }
      KeptGroup(rest, Some(bucket));
      var buckets, later := BucketsKept(times, previous), BucketsKept(rest, Some(bucket));
      forall i | 0 <= i < |times| - 1
        ensures buckets[i + 1] == buckets[i]
          || (buckets[i] + MAXIMUM_GROUP_SPAN_HOURS <= buckets[i + 1] && buckets[i + 1] == times[i + 1] / HOUR)
      {
        assert buckets[i + 1] == later[i] && times[i + 1] == rest[i];
        if 0 < i {
          assert buckets[i] == later[i - 1];
        }
      }
      forall i | 0 <= i < |times|
        ensures buckets[i] * HOUR <= times[i] < (buckets[i] + MAXIMUM_GROUP_SPAN_HOURS) * HOUR
      {
        if 0 < i {
          assert buckets[i] == later[i - 1] && times[i] == rest[i - 1];
        }
      }
    }
  }

  lemma {:induction false} BucketsOnlyGrow(times: seq<nat>, buckets: seq<nat>, i: nat, j: nat)
    requires Grouped(times, buckets) && i <= j < |times|
    ensures buckets[i] == buckets[j] || buckets[i] + MAXIMUM_GROUP_SPAN_HOURS <= buckets[j]
    decreases j - i
  {
    if i < j {
      BucketsOnlyGrow(times, buckets, i, j - 1);
      assert buckets[j] == buckets[j - 1 + 1];
    }
  }

  /** Notifications in order fall into groups of at most the span: each within
      the span's hours from its group's bucket; a group contiguous in time; and
      a later group's bucket at least a span after an earlier's. The key's
      expiry has no say in it. */
  lemma GroupsSpanAtMostTwelveHours(times: seq<nat>)
    requires InOrder(times)
    ensures var buckets := Buckets(times, None);
            && buckets == BucketsKept(times, None) && Grouped(times, buckets)
            && (times != [] ==> buckets[0] == times[0] / 3600)
            && (forall i, j :: 0 <= i <= j < |times| ==>
                  buckets[i] == buckets[j] || buckets[i] + MAXIMUM_GROUP_SPAN_HOURS <= buckets[j])
            && (forall i, j, k :: 0 <= i <= j <= k < |times| && buckets[i] == buckets[k] ==> buckets[j] == buckets[i])
  {
    ExpiryChangesNothing(times, None);
    KeptGroup(times, None);
    var buckets := Buckets(times, None);
    forall i, j | 0 <= i <= j < |times|
      ensures buckets[i] == buckets[j] || buckets[i] + MAXIMUM_GROUP_SPAN_HOURS <= buckets[j]
    {
      BucketsOnlyGrow(times, buckets, i, j);
    }
  }
}

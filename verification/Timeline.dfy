/** A feed and its keys in Redis, updated in place as the source updates them,
    command by command. Each operation is proved to do what `Feed` says. */
module Timelines {
  import opened Basics
  import opened SortedSets
  import opened Feed
  import opened Population

  class Timeline {
    /** `<feed>`: the statuses. */
    var entries: set<Id>
    /** `<feed>:reblogs`: the boosted posts, with the score of their boost. */
    var reblogs: map<Id, int>
    /** `<feed>:reblogs:<id>`: the boosts held back for a post. */
    var held: map<Id, set<Id>>
    const score: Scoring

    constructor (score: Scoring)
      ensures View() == EMPTY && this.score == score
    {
      entries, reblogs, held := {}, map[], map[];
      this.score := score;
    }

    function View(): Keys
      reads this
    {
      Keys(entries, reblogs, held)
    }

    method AddToFeed(id: Id, reblogOf: Option<Id>, aggregate: bool) returns (added: bool)
      modifies this
      ensures Answer(View(), added) == Add(score, old(View()), id, reblogOf, aggregate)
    {
      match Aggregated(reblogOf, aggregate) {
        case Some(post) =>
          // ZREVRANK
          if post in entries && Rank(entries, post) < REBLOG_FALLOFF {
            return false;
          }
          // ZADD NX
          var tracked := post !in reblogs;
          if tracked {
            reblogs := reblogs[post := score(id)];
            entries := entries + {id};
            return true;
          } else {
            // SADD
            held := held[post := (if post in held then held[post] else {}) + {id}];
            return false;
          }
        case None =>
          // ZSCORE
          if id in reblogs {
            return false;
          }
          entries := entries + {id};
          return true;
      }
    }

    /** `SREM`, which drops a set it empties. */
    method RemoveHeld(post: Id, id: Id)
      modifies this`held
      ensures held == Put(old(held), post, old(View()).Held(post) - {id})
    {
      if post in held {
        var rest := held[post] - {id};
        held := if rest == {} then held - {post} else held[post := rest];
      } else {
        assert held - {post} == held;
      }
    }

    method RemoveFromFeed(id: Id, reblogOf: Option<Id>, aggregate: bool) returns (removed: bool)
      modifies this
      ensures Answer(View(), removed) == Remove(score, old(View()), id, reblogOf, aggregate)
    {
      match Aggregated(reblogOf, aggregate) {
        case Some(post) =>
          if id !in entries {
            return false;
          }
          RemoveHeld(post, id);
          reblogs := reblogs - {post};
          var others := if post in held then held[post] else {};
          if others != {} {
            var other := Oldest(others);
            entries := entries + {other};
            reblogs := reblogs[post := score(other)];
          }
          removed := id in entries;
          entries := entries - {id};
        case None =>
          held := held - {id};
          reblogs := reblogs - {id};
          removed := id in entries;
          entries := entries - {id};
      }
    }

    method TrimFeed()
      modifies this
      ensures View() == Trim(score, old(View()))
    {
      // ZREMRANGEBYRANK 0 -(800 + 1)
      entries := Newest(entries, FEED_MAX_ITEMS);
      if |entries| <= REBLOG_FALLOFF {
        assert reblogs - {} == reblogs && held - {} == held;
        return;
      }
      // ZREVRANGEBYSCORE LIMIT 80 1
      var falloff :| falloff in entries && Rank(entries, falloff) == REBLOG_FALLOFF by {
        EntryAtRankExists(entries, REBLOG_FALLOFF);
      }
      RankInjective(entries, falloff, EntryAtRank(entries, REBLOG_FALLOFF));
      // ZRANGEBYSCORE 0 score
      var stale := set p | p in reblogs && 0 <= reblogs[p] <= score(falloff);
      ghost var reblogs0, held0 := reblogs, held;
      var left := stale;
      while left != {}
        invariant left <= stale && entries == Newest(old(entries), FEED_MAX_ITEMS)
        invariant reblogs == reblogs0 - (stale - left)
        invariant held == held0 - (stale - left)
        decreases |left|
      {
        var p :| p in left;
        left := left - {p};
        reblogs := reblogs - {p};
        held := held - {p};
      }
    }

    /** `push`: an addition, and a trim when it went in. */
    method Push(id: Id, reblogOf: Option<Id>, aggregate: bool) returns (added: bool)
      modifies this
      ensures var a := Add(score, old(View()), id, reblogOf, aggregate);
              added == a.yes && View() == if a.yes then Trim(score, a.feed) else a.feed
    {
      added := AddToFeed(id, reblogOf, aggregate);
      if added {
        TrimFeed();
      }
    }

    method AddAllToFeed(origins: Origins, ids: seq<Id>, aggregate: bool)
      modifies this
      ensures View() == AddAll(score, origins, old(View()), ids, aggregate)
    {
      ghost var commands := Adds(ids, aggregate);
      for i := 0 to |ids|
        invariant View() == Run(score, origins, old(View()), commands[..i])
      {
        var _ := AddToFeed(ids[i], Boosted(origins, ids[i]), aggregate);
        assert commands[..i + 1] == commands[..i] + [Adding(ids[i], aggregate)];
        RunAppend(score, origins, old(View()), commands[..i], [Adding(ids[i], aggregate)]);
      }
      assert commands[..|ids|] == commands;
      TrimFeed();
    }

    /** What `populate_from`'s loop reads of an account, nothing if it skips it. */
    method ReadOne(t: Target, overLimit: bool) returns (over: bool, statuses: set<Id>)
      ensures over == OverLimit(Progress(View(), overLimit))
      ensures statuses == ReadOf(score, Progress(View(), overLimit), t)
    {
      over := overLimit || |entries| >= POPULATE_LIMIT;
      var after := None;
      if over && entries != {} {
        var oldest := score(Oldest(entries));
        if IdAt(t.lastStatus) < oldest {
          return over, {};
        }
        after := Some(oldest - 1);
      }
      statuses := Eligible(t.statuses, after, POPULATE_LIMIT);
    }

    /** One account of the loop. */
    method PopulateFromOne(r: Receiver, t: Target, overLimit: bool) returns (over: bool)
      modifies this
      ensures Progress(View(), over) == PopulateOne(score, r, Progress(old(View()), overLimit), t)
    {
      var statuses;
      over, statuses := ReadOne(t, overLimit);
      if statuses != {} {
        AddAllToFeed(r.origins, r.Unfiltered(statuses), r.aggregate);
      }
    }

    method PopulateFrom(r: Receiver, targets: seq<Target>)
      modifies this
      ensures View() == Populate(score, r, Progress(old(View()), false), targets).feed
    {
      var overLimit := false;
      ghost var whole := Populate(score, r, Progress(View(), false), targets);
      for i := 0 to |targets|
        invariant Populate(score, r, Progress(View(), overLimit), targets[i..]) == whole
      {
        assert targets[i..][1..] == targets[i + 1..];
        overLimit := PopulateFromOne(r, targets[i], overLimit);
      }
    }

    /** `merge`: the newest 200 of an account, past the oldest entry of a feed
        that already holds as many. */
    method Merge(r: Receiver, statuses: set<Id>)
      modifies this
      ensures View() == MergeInto(score, r, old(View()), statuses)
    {
      var after := None;
      if |entries| >= MERGE_LIMIT {
        after := Some(score(Oldest(entries)));
      }
      AddAllToFeed(r.origins, r.Unfiltered(Eligible(statuses, after, MERGE_LIMIT)), r.aggregate);
    }

    method CleanFeed()
      modifies this
      ensures View() == Clean(old(View()))
    {
      var tracked := reblogs.Keys;
      entries, reblogs := {}, map[];
      var left := tracked;
      while left != {}
        invariant left <= tracked && entries == {} && reblogs == map[]
        invariant held == old(held) - (tracked - left)
        decreases |left|
      {
        var p :| p in left;
        left := left - {p};
        held := held - {p};
      }
    }
  }
}

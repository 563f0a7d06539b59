/** `FeedManager#filter_from_home`: what keeps a status out of a feed, as a
    relation over the tables, and the two plans that read the tables in
    batches, one receiver with many statuses and one status with many
    receivers. */
module Filtering {
  import opened Basics

  // ── Tables ──────────────────────────────────────────────────────────────

  datatype Follow = Follow(languages: Option<seq<string>>, showReblogs: bool, notify: bool)

  datatype List = List(owner: Id, exclusive: bool)

  /** Rows as pairs of ids: follows, blocks and mutes from an account to its
      target, mentions that are not silent from a status to an account, list
      memberships from a list to an account. */
  datatype Tables = Tables(
    follows: map<(Id, Id), Follow>,
    blocks: set<(Id, Id)>,
    mutes: set<(Id, Id)>,
    domainBlocks: set<(Id, string)>,
    mentions: set<(Id, Id)>,
    lists: map<Id, List>,
    members: set<(Id, Id)>)

  datatype Boosted = Boosted(author: Id, domain: Option<string>)

  /** `Candidate`. */
  datatype Status = Status(
    id: Id, author: Id, reply: bool, inReplyTo: Option<Id>, inReplyToAccount: Option<Id>,
    language: Option<string>, reblogOf: Option<Id>, reblog: Option<Boosted>)

  /** `reblog` is joined on `reblog_of_id`. */
  predicate Joined(s: Status) {
    s.reblog.Some? ==> s.reblogOf.Some?
  }

  const LIST := 0
  const FOLLOWED := 1

  /** `Receiver`: the home feed, or a list's. */
  datatype Receiver = Home | ListFeed(id: Id, repliesPolicy: int)

  datatype Filtered = Filter | SkipHome

  // ── What keeps a status out, directly ───────────────────────────────────

  function Mentioned(db: Tables, status: Id): set<Id> {
    set m | m in db.mentions && m.0 == status :: m.1
  }

  /** The accounts a status concerns: its author and those it mentions, and
      for a boost the same of the boosted post. */
  function Concerned(db: Tables, s: Status): set<Id> {
    Mentioned(db, s.id) + {s.author}
    + if s.reblog.Some? && s.reblogOf.Some? then {s.reblog.value.author} + Mentioned(db, s.reblogOf.value) else {}
  }

  function Languages(db: Tables, receiver: Id, author: Id): Option<seq<string>> {
    if (receiver, author) !in db.follows then None
    else
      match db.follows[(receiver, author)].languages
      case Some(l) => if l == [] then None else Some(l)
      case None => None
  }

  predicate LanguageNotWanted(db: Tables, receiver: Id, s: Status) {
    && s.language.Some? && s.language.value != ""
    && var wanted := Languages(db, receiver, s.author);
       wanted.Some? && s.language.value !in wanted.value
  }

  predicate BlocksOrMutes(db: Tables, receiver: Id, account: Id) {
    (receiver, account) in db.blocks || (receiver, account) in db.mutes
  }

  predicate OnExclusiveList(db: Tables, receiver: Id, account: Id) {
    exists l :: l in db.lists && db.lists[l] == List(receiver, true) && (l, account) in db.members
  }

  /** Whether replies to `account` belong in the feed, apart from the
      receiver's own conversations. */
  predicate RepliesWanted(db: Tables, receiver: Id, feed: Receiver, account: Id) {
    match feed
    case Home => (receiver, account) in db.follows
    case ListFeed(id, policy) =>
      if policy == FOLLOWED then (receiver, account) in db.follows
      else policy == LIST && (id, account) in db.members
  }

  predicate ReplyNotWanted(db: Tables, receiver: Id, feed: Receiver, s: Status) {
    && s.reply && s.inReplyToAccount.Some?
    && var to := s.inReplyToAccount.value;
       to != receiver && to != s.author && !RepliesWanted(db, receiver, feed, to)
  }

  predicate BoostNotWanted(db: Tables, receiver: Id, s: Status) {
    && s.reblog.Some? && !(s.reply && s.inReplyToAccount.Some?)
    && (((receiver, s.author) in db.follows && !db.follows[(receiver, s.author)].showReblogs)
        || (s.reblog.value.author, receiver) in db.blocks
        || (s.reblog.value.domain.Some? && (receiver, s.reblog.value.domain.value) in db.domainBlocks))
  }

  ghost predicate NotWanted(db: Tables, receiver: Id, feed: Receiver, s: Status) {
    || LanguageNotWanted(db, receiver, s)
    || (s.reblogOf.Some? && s.reblog.None?)
    || (exists a :: a in Concerned(db, s) && BlocksOrMutes(db, receiver, a))
    || (s.author, receiver) in db.blocks
    || ReplyNotWanted(db, receiver, feed, s)
    || BoostNotWanted(db, receiver, s)
  }

  predicate Orphaned(s: Status) {
    s.reply && (s.inReplyTo.None? || s.inReplyToAccount.None?)
  }

  ghost function Verdict(db: Tables, receiver: Id, feed: Receiver, s: Status): Option<Filtered> {
    if receiver == s.author then None
    else if Orphaned(s) then Some(Filter)
    else if feed.Home? && OnExclusiveList(db, receiver, s.author) then Some(SkipHome)
    else if NotWanted(db, receiver, feed, s) then Some(Filter)
    else None
  }

  /** Why a followed hashtag's status is kept out. */
  ghost predicate TagNotWanted(db: Tables, receiver: Id, authorDomain: Option<string>, s: Status) {
    || receiver == s.author
    || (exists a :: a in Mentioned(db, s.id) + {s.author} && BlocksOrMutes(db, receiver, a))
    || (s.author, receiver) in db.blocks
    || (authorDomain.Some? && (receiver, authorDomain.value) in db.domainBlocks)
  }

  // ── The source's decision, from what was read ───────────────────────────

  /** `Crutches`: what was read for one receiver. */
  datatype Crutches = Crutches(
    activeMentions: map<Id, set<Id>>,
    following: set<Id>,
    languages: map<Id, seq<string>>,
    hidingReblogs: set<Id>,
    blocking: set<Id>,
    muting: set<Id>,
    domainBlocking: set<string>,
    blockedBy: set<Id>,
    exclusiveListUsers: set<Id>,
    notifying: bool)
  {
    function Mentions(status: Id): set<Id> {
      if status in activeMentions then activeMentions[status] else {}
    }
  }

  /** `filtered_after_lists`. */
  predicate FilteredAfterLists(s: Status, receiver: Id, c: Crutches) {
    if s.author in c.languages && s.language.Some? && s.language.value != ""
       && s.language.value !in c.languages[s.author] then true
    else if s.reblogOf.Some? && s.reblog.None? then true
    else
      var checkForBlocks := c.Mentions(s.id) + {s.author}
        + if s.reblogOf.Some? && s.reblog.Some? then
            {s.reblog.value.author} + c.Mentions(s.reblogOf.value)
          else {};
      if exists a :: a in checkForBlocks && (a in c.blocking || a in c.muting) then true
      else if s.author in c.blockedBy then true
      else if s.reply && s.inReplyToAccount.Some? then
        var to := s.inReplyToAccount.value;
        to !in c.following && receiver != to && s.author != to
      else if s.reblog.Some? then
        || s.author in c.hidingReblogs
        || s.reblog.value.author in c.blockedBy
        || (s.reblog.value.domain.Some? && s.reblog.value.domain.value in c.domainBlocking)
      else false
  }

  /** `filter_result`. */
  function FilterResult(s: Status, receiver: Id, c: Crutches, feed: Receiver): Option<Filtered> {
    if receiver == s.author then None
    else if s.reply && (s.inReplyTo.None? || s.inReplyToAccount.None?) then Some(Filter)
    else if feed.Home? && s.author in c.exclusiveListUsers then Some(SkipHome)
    else if FilteredAfterLists(s, receiver, c) then Some(Filter)
    else None
  }

  /** `filter_from_tags`. */
  predicate FilterFromTags(s: Status, authorDomain: Option<string>, receiver: Id, c: Crutches) {
    || receiver == s.author
    || (exists a :: a in c.Mentions(s.id) + {s.author} && (a in c.blocking || a in c.muting))
    || s.author in c.blockedBy
    || (authorDomain.Some? && authorDomain.value in c.domainBlocking)
  }

  // ── Reading within a scope ──────────────────────────────────────────────

  /** The ids a batch of queries is limited to, by their `ANY($n)`. */
  datatype Scope = Scope(
    mentioned: set<Id>, checked: set<Id>, authors: set<Id>, rebloggers: set<Id>,
    repliedTo: set<Id>, domains: set<string>, authorsAndBoosted: set<Id>)

  function MentionsWithin(db: Tables, statuses: set<Id>): map<Id, set<Id>> {
    map s | s in statuses && Mentioned(db, s) != {} :: Mentioned(db, s)
  }

  /** `WHERE account_id = $1 AND … = ANY(values)`. */
  function Picked<T(==)>(table: set<(Id, T)>, receiver: Id, values: set<T>): set<T> {
    set x | x in values && (receiver, x) in table
  }

  /** The blocks, by the account blocked. */
  function Turned(rows: set<(Id, Id)>): (turned: set<(Id, Id)>)
    ensures forall a: Id, b: Id :: (a, b) in turned <==> (b, a) in rows
  {
    set row | row in rows :: (row.1, row.0)
  }

  /** The accounts on exclusive lists, by the lists' owners. */
  function Exclusive(db: Tables): (rows: set<(Id, Id)>)
    ensures forall r: Id, a: Id :: (r, a) in rows <==> OnExclusiveList(db, r, a)
  {
    var rows := set m | m in db.members && m.0 in db.lists && db.lists[m.0].exclusive :: (db.lists[m.0].owner, m.1);
    forall r: Id, a: Id ensures (r, a) in rows <==> OnExclusiveList(db, r, a) {
      if l :| l in db.lists && db.lists[l] == List(r, true) && (l, a) in db.members {
        assert (l, a).0 in db.lists;
      }
    }
    rows
  }

  function WantedWithin(db: Tables, receiver: Id, feed: Receiver, repliedTo: set<Id>): set<Id> {
    set a | a in repliedTo && RepliesWanted(db, receiver, feed, a)
  }

  function LanguagesWithin(db: Tables, receiver: Id, authors: set<Id>): map<Id, seq<string>> {
    map a | a in authors && Languages(db, receiver, a).Some? :: Languages(db, receiver, a).value
  }

  function HidingWithin(db: Tables, receiver: Id, rebloggers: set<Id>): set<Id> {
    set a | a in rebloggers && (receiver, a) in db.follows && !db.follows[(receiver, a)].showReblogs
  }

  /** A batch read whole, for one receiver. */
  function ReadWithin(db: Tables, receiver: Id, feed: Receiver, scope: Scope, notifying: bool): Crutches {
    Crutches(
      MentionsWithin(db, scope.mentioned),
      WantedWithin(db, receiver, feed, scope.repliedTo),
      LanguagesWithin(db, receiver, scope.authors),
      HidingWithin(db, receiver, scope.rebloggers),
      Picked(db.blocks, receiver, scope.checked),
      Picked(db.mutes, receiver, scope.checked),
      Picked(db.domainBlocks, receiver, scope.domains),
      Picked(Turned(db.blocks), receiver, scope.authorsAndBoosted),
      if feed.Home? then Picked(Exclusive(db), receiver, scope.authors) else {},
      notifying)
  }

  /** A scope that takes in everything a status's decision looks up. */
  ghost predicate Covers(db: Tables, scope: Scope, s: Status) {
    && s.id in scope.mentioned
    && (s.reblogOf.Some? ==> s.reblogOf.value in scope.mentioned && s.author in scope.rebloggers)
    && Concerned(db, s) <= scope.checked
    && s.author in scope.authors && s.author in scope.authorsAndBoosted
    && (s.inReplyToAccount.Some? ==> s.inReplyToAccount.value in scope.repliedTo)
    && (s.reblog.Some? ==>
          && s.reblog.value.author in scope.authorsAndBoosted
          && (s.reblog.value.domain.Some? ==> s.reblog.value.domain.value in scope.domains))
  }

  lemma AfterListsDecides(
    db: Tables, receiver: Id, feed: Receiver, scope: Scope, notifying: bool, s: Status)
    requires Joined(s) && Covers(db, scope, s)
    ensures FilteredAfterLists(s, receiver, ReadWithin(db, receiver, feed, scope, notifying))
       <==> NotWanted(db, receiver, feed, s)
  {
    var c := ReadWithin(db, receiver, feed, scope, notifying);
    assert c.Mentions(s.id) == Mentioned(db, s.id);
    assert s.reblogOf.Some? ==> c.Mentions(s.reblogOf.value) == Mentioned(db, s.reblogOf.value);
    assert forall a :: a in Concerned(db, s) ==>
      ((a in c.blocking || a in c.muting) <==> BlocksOrMutes(db, receiver, a));
  }

  lemma CoveringScopeDecides(
    db: Tables, receiver: Id, feed: Receiver, scope: Scope, notifying: bool, s: Status)
    requires Joined(s) && Covers(db, scope, s)
    ensures FilterResult(s, receiver, ReadWithin(db, receiver, feed, scope, notifying), feed)
         == Verdict(db, receiver, feed, s)
  {
    AfterListsDecides(db, receiver, feed, scope, notifying, s);
  }

  lemma CoveringScopeDecidesTags(
    db: Tables, receiver: Id, feed: Receiver, scope: Scope, notifying: bool,
    authorDomain: Option<string>, s: Status)
    requires Covers(db, scope, s)
    requires authorDomain.Some? ==> authorDomain.value in scope.domains
    ensures FilterFromTags(s, authorDomain, receiver, ReadWithin(db, receiver, feed, scope, notifying))
       <==> TagNotWanted(db, receiver, authorDomain, s)
  {
    var c := ReadWithin(db, receiver, feed, scope, notifying);
    assert c.Mentions(s.id) == Mentioned(db, s.id);
    assert forall a :: a in Mentioned(db, s.id) + {s.author} ==>
      a in Concerned(db, s) && ((a in c.blocking || a in c.muting) <==> BlocksOrMutes(db, receiver, a));
  }

  // ── One receiver, many statuses ─────────────────────────────────────────

  function StatusIds(statuses: set<Status>): set<Id> {
    (set s | s in statuses :: s.id) + (set s | s in statuses && s.reblogOf.Some? :: s.reblogOf.value)
  }

  function ConcernedBy(db: Tables, statuses: set<Status>): set<Id> {
    set s, a | s in statuses && a in Concerned(db, s) :: a
  }

  /** What `Crutches::build` limits its queries to. */
  function BuildScope(db: Tables, statuses: set<Status>): Scope {
    Scope(
      StatusIds(statuses),
      ConcernedBy(db, statuses),
      (set s | s in statuses :: s.author),
      (set s | s in statuses && s.reblogOf.Some? :: s.author),
      (set s | s in statuses && s.inReplyToAccount.Some? :: s.inReplyToAccount.value),
      (set s | s in statuses && s.reblog.Some? && s.reblog.value.domain.Some? :: s.reblog.value.domain.value),
      (set s | s in statuses :: s.author) + (set s | s in statuses && s.reblog.Some? :: s.reblog.value.author))
  }

  /** The loop that groups the mentions read by their status. */
  method ReadMentions(db: Tables, statuses: set<Id>) returns (groups: map<Id, set<Id>>)
    ensures groups == MentionsWithin(db, statuses)
  {
    var rows := set m | m in db.mentions && m.0 in statuses;
    groups := map[];
    var left := rows;
    while left != {}
      invariant left <= rows
      invariant Groups(groups, rows - left)
      decreases |left|
    {
      var row :| row in left;
      left := left - {row};
      groups := groups[row.0 := (if row.0 in groups then groups[row.0] else {}) + {row.1}];
    }
    assert rows - left == rows;
    GroupsAreMentions(db, statuses, groups);
  }

  ghost predicate Groups(groups: map<Id, set<Id>>, rows: set<(Id, Id)>) {
    && (forall s :: s in groups ==> groups[s] != {})
    && (forall s, a :: s in groups && a in groups[s] <==> (s, a) in rows)
  }

  lemma GroupsAreMentions(db: Tables, statuses: set<Id>, groups: map<Id, set<Id>>)
    requires Groups(groups, set m | m in db.mentions && m.0 in statuses)
    ensures groups == MentionsWithin(db, statuses)
  {
    var want := MentionsWithin(db, statuses);
    forall s | s in groups ensures s in want && groups[s] == want[s] {
      var a :| a in groups[s];
      assert (s, a) in db.mentions && (s, a).1 in Mentioned(db, s);
      forall b ensures b in groups[s] <==> b in Mentioned(db, s) {
        assert b in groups[s] <==> (s, b) in db.mentions && s in statuses;
      }
    }
    forall s | s in want ensures s in groups {
      var a :| a in Mentioned(db, s);
      assert (s, a) in db.mentions;
    }
  }

  /** The loop that gathers the accounts to check for blocks. */
  method CheckForBlocks(db: Tables, statuses: seq<Status>, activeMentions: map<Id, set<Id>>)
    returns (checked: set<Id>)
    requires activeMentions == MentionsWithin(db, StatusIds(set s | s in statuses))
    ensures checked == ConcernedBy(db, set s | s in statuses)
  {
    checked := {};
    for i := 0 to |statuses|
      invariant forall a :: a in checked <==> exists j :: 0 <= j < i && a in Concerned(db, statuses[j])
    {
      var s := statuses[i];
      var more := (if s.id in activeMentions then activeMentions[s.id] else {}) + {s.author};
      if s.reblogOf.Some? && s.reblog.Some? {
        more := more + {s.reblog.value.author}
          + (if s.reblogOf.value in activeMentions then activeMentions[s.reblogOf.value] else {});
      }
      assert s in (set s | s in statuses);
      assert more == Concerned(db, s);
      checked := checked + more;
    }
    forall a ensures a in checked <==> a in ConcernedBy(db, set s | s in statuses) {
      if s :| s in statuses && a in Concerned(db, s) {
        var j :| 0 <= j < |statuses| && statuses[j] == s;
      }
    }
  }

  /** `Crutches::build`. */
  method Build(db: Tables, receiver: Id, statuses: seq<Status>, feed: Receiver) returns (c: Crutches)
    ensures c == ReadWithin(db, receiver, feed, BuildScope(db, set s | s in statuses), false)
  {
    var all := set s | s in statuses;
    var scope := BuildScope(db, all);
    var activeMentions := ReadMentions(db, scope.mentioned);
    var checked := CheckForBlocks(db, statuses, activeMentions);
    // The remaining reads are one SELECT each, as `ReadWithin` has them.
    c := ReadWithin(db, receiver, feed, scope.(checked := checked), false)
         .(activeMentions := activeMentions);
  }

  lemma BuildCovers(db: Tables, statuses: set<Status>, s: Status)
    requires s in statuses
    ensures Covers(db, BuildScope(db, statuses), s)
  {
    forall a | a in Concerned(db, s) ensures a in ConcernedBy(db, statuses) {
    }
  }

  // ── One status, many receivers ──────────────────────────────────────────

  function Opt<T(==)>(o: Option<T>): set<T> {
    if o.Some? then {o.value} else {}
  }

  /** What `crutches_for` limits its queries to. */
  function OneScope(db: Tables, s: Status, authorDomain: Option<string>): Scope {
    Scope(
      {s.id} + Opt(s.reblogOf),
      Concerned(db, s),
      {s.author},
      if s.reblogOf.Some? then {s.author} else {},
      Opt(s.inReplyToAccount),
      Opt(authorDomain) + (if s.reblog.Some? then Opt(s.reblog.value.domain) else {}),
      {s.author} + (if s.reblog.Some? then {s.reblog.value.author} else {}))
  }

  /** The crutches one of the receivers gets; `home` adds the exclusive lists. */
  function ReadForOne(db: Tables, receiver: Id, s: Status, authorDomain: Option<string>, home: bool): Crutches {
    var notifying := (receiver, s.author) in db.follows && db.follows[(receiver, s.author)].notify;
    var c := ReadWithin(db, receiver, Home, OneScope(db, s, authorDomain), notifying);
    if home then c else c.(exclusiveListUsers := {})
  }

  /** `WHERE account_id = ANY(receivers) AND … = ANY(values)`, and the loop that
      hands each row to the receiver it is of. */
  method Distribute<T(==)>(table: set<(Id, T)>, receivers: set<Id>, values: set<T>)
    returns (m: map<Id, set<T>>)
    ensures m.Keys == receivers
    ensures forall r :: r in receivers ==> m[r] == Picked(table, r, values)
  {
    var rows := set row | row in table && row.0 in receivers && row.1 in values;
    m := map r | r in receivers :: {};
    var left := rows;
    while left != {}
      invariant left <= rows && m.Keys == receivers
      invariant forall r, x :: r in receivers ==> (x in m[r] <==> (r, x) in rows - left)
      decreases |left|
    {
      var row :| row in left;
      left := left - {row};
      m := m[row.0 := m[row.0] + {row.1}];
    }
    forall r | r in receivers ensures m[r] == Picked(table, r, values) {
      assert forall x :: x in m[r] <==> (r, x) in table && x in values;
    }
  }

  /** What a receiver's follow of the author adds to its crutches. */
  function AddFollow(c: Crutches, s: Status, follow: Follow): Crutches {
    c.(languages := if follow.languages.Some? && follow.languages.value != []
                    then c.languages[s.author := follow.languages.value] else c.languages,
       hidingReblogs := if s.reblogOf.Some? && !follow.showReblogs
                        then c.hidingReblogs + {s.author} else c.hidingReblogs,
       notifying := follow.notify)
  }

  /** The loop over the receivers' follows of the author. */
  method ReadFollows(db: Tables, s: Status, receivers: set<Id>, crutches: map<Id, Crutches>)
    returns (m: map<Id, Crutches>)
    requires crutches.Keys == receivers
    ensures m.Keys == receivers
    ensures forall r :: r in receivers ==>
      m[r] == if (r, s.author) in db.follows then AddFollow(crutches[r], s, db.follows[(r, s.author)])
              else crutches[r]
  {
    m := crutches;
    var rows := set r | r in receivers && (r, s.author) in db.follows;
    var left := rows;
    while left != {}
      invariant left <= rows && m.Keys == receivers
      invariant forall r :: r in receivers ==>
        m[r] == if r in rows - left then AddFollow(crutches[r], s, db.follows[(r, s.author)])
                else crutches[r]
      decreases |left|
    {
      var r :| r in left;
      left := left - {r};
      m := m[r := AddFollow(m[r], s, db.follows[(r, s.author)])];
    }
  }

  /** What the queries give one receiver before its follow of the author. */
  function RowsOf(db: Tables, s: Status, scope: Scope, home: bool, r: Id): Crutches {
    Crutches(
      MentionsWithin(db, scope.mentioned),
      Picked(db.follows.Keys, r, scope.repliedTo), map[], {},
      Picked(db.blocks, r, scope.checked), Picked(db.mutes, r, scope.checked),
      Picked(db.domainBlocks, r, scope.domains),
      Picked(Turned(db.blocks), r, scope.authorsAndBoosted),
      Picked(if home then Exclusive(db) else {}, r, {s.author}), false)
  }

  /** Whom each receiver follows, blocks and mutes. */
  method ReadRelations(db: Tables, scope: Scope, receivers: set<Id>)
    returns (read: map<Id, (set<Id>, set<Id>, set<Id>)>)
    ensures read.Keys == receivers
    ensures forall r :: r in receivers ==>
      read[r] == (Picked(db.follows.Keys, r, scope.repliedTo),
                  Picked(db.blocks, r, scope.checked), Picked(db.mutes, r, scope.checked))
  {
    var following := Distribute(db.follows.Keys, receivers, scope.repliedTo);
    var blocking := Distribute(db.blocks, receivers, scope.checked);
    var muting := Distribute(db.mutes, receivers, scope.checked);
    read := map r | r in receivers :: (following[r], blocking[r], muting[r]);
  }

  /** The domains it blocks, who blocks it, and whom its exclusive lists hold. */
  method ReadOthers(db: Tables, s: Status, scope: Scope, receivers: set<Id>, home: bool)
    returns (read: map<Id, (set<string>, set<Id>, set<Id>)>)
    ensures read.Keys == receivers
    ensures forall r :: r in receivers ==>
      read[r] == (Picked(db.domainBlocks, r, scope.domains),
                  Picked(Turned(db.blocks), r, scope.authorsAndBoosted),
                  Picked(if home then Exclusive(db) else {}, r, {s.author}))
  {
    var domainBlocking := Distribute(db.domainBlocks, receivers, scope.domains);
    var blockedBy := Distribute(Turned(db.blocks), receivers, scope.authorsAndBoosted);
    var exclusive := Distribute(if home then Exclusive(db) else {}, receivers, {s.author});
    read := map r | r in receivers :: (domainBlocking[r], blockedBy[r], exclusive[r]);
  }

  method ReadRows(db: Tables, s: Status, scope: Scope, receivers: set<Id>, home: bool,
                  activeMentions: map<Id, set<Id>>)
    returns (read: map<Id, Crutches>)
    requires activeMentions == MentionsWithin(db, scope.mentioned)
    ensures read.Keys == receivers
    ensures forall r :: r in receivers ==> read[r] == RowsOf(db, s, scope, home, r)
  {
    var relations := ReadRelations(db, scope, receivers);
    var others := ReadOthers(db, s, scope, receivers, home);
    read := map r | r in receivers ::
      Crutches(activeMentions, relations[r].0, map[], {}, relations[r].1, relations[r].2,
               others[r].0, others[r].1, others[r].2, false);
  }

  /** `crutches_for`. */
  method CrutchesFor(db: Tables, s: Status, authorDomain: Option<string>, receivers: set<Id>, home: bool)
    returns (crutches: map<Id, Crutches>)
    ensures crutches.Keys == receivers
    ensures forall r :: r in receivers ==> crutches[r] == ReadForOne(db, r, s, authorDomain, home)
  {
    var scope := OneScope(db, s, authorDomain);
    var activeMentions := ReadMentions(db, scope.mentioned);
    OneStatus(db, s);
    var checked := CheckForBlocks(db, [s], activeMentions);
    var read := ReadRows(db, s, scope.(checked := checked), receivers, home, activeMentions);
    crutches := ReadFollows(db, s, receivers, read);
    forall r | r in receivers ensures crutches[r] == ReadForOne(db, r, s, authorDomain, home) {
      OneReceiver(db, s, authorDomain, home, r);
    }
  }

  lemma OneReceiver(db: Tables, s: Status, authorDomain: Option<string>, home: bool, r: Id)
    ensures var c := RowsOf(db, s, OneScope(db, s, authorDomain), home, r);
            ReadForOne(db, r, s, authorDomain, home)
              == if (r, s.author) in db.follows then AddFollow(c, s, db.follows[(r, s.author)]) else c
  {
    var scope := OneScope(db, s, authorDomain);
    assert WantedWithin(db, r, Home, scope.repliedTo) == Picked(db.follows.Keys, r, scope.repliedTo);
    assert Picked<Id>({}, r, {s.author}) == {};
    FollowOfAuthor(db, s, r, scope);
    var want := ReadForOne(db, r, s, authorDomain, home);
    var c := RowsOf(db, s, scope, home, r);
    assert want.(languages := map[], hidingReblogs := {}, notifying := false) == c;
    assert (r, s.author) !in db.follows ==> want == c;
  }

  lemma FollowOfAuthor(db: Tables, s: Status, r: Id, scope: Scope)
    requires scope.authors == {s.author}
    requires scope.rebloggers == if s.reblogOf.Some? then {s.author} else {}
    ensures LanguagesWithin(db, r, scope.authors)
         == if Languages(db, r, s.author).Some?
            then map[s.author := Languages(db, r, s.author).value] else map[]
    ensures HidingWithin(db, r, scope.rebloggers)
         == if s.reblogOf.Some? && (r, s.author) in db.follows && !db.follows[(r, s.author)].showReblogs
            then {s.author} else {}
  {
  }

  lemma OneStatus(db: Tables, s: Status)
    ensures StatusIds(set x | x in [s]) == {s.id} + Opt(s.reblogOf)
    ensures ConcernedBy(db, set x | x in [s]) == Concerned(db, s)
  {
    assert (set x | x in [s]) == {s};
  }

  lemma OneCovers(db: Tables, s: Status, authorDomain: Option<string>)
    ensures Covers(db, OneScope(db, s, authorDomain), s)
  {
  }

  // ── The plans agree ─────────────────────────────────────────────────────

  /** For any tables, both plans decide a home feed as the tables say: read for
      one receiver among any batch with the status in it, or for one status
      among any receivers. */
  lemma PlansAgree(
    db: Tables, receiver: Id, statuses: set<Status>, s: Status, authorDomain: Option<string>)
    requires Joined(s) && s in statuses
    ensures FilterResult(s, receiver, ReadWithin(db, receiver, Home, BuildScope(db, statuses), false), Home)
         == Verdict(db, receiver, Home, s)
    ensures FilterResult(s, receiver, ReadForOne(db, receiver, s, authorDomain, true), Home)
         == Verdict(db, receiver, Home, s)
  {
    BuildCovers(db, statuses, s);
    OneCovers(db, s, authorDomain);
    var notifying := (receiver, s.author) in db.follows && db.follows[(receiver, s.author)].notify;
    CoveringScopeDecides(db, receiver, Home, BuildScope(db, statuses), false, s);
    CoveringScopeDecides(db, receiver, Home, OneScope(db, s, authorDomain), notifying, s);
  }

  lemma TagPlanDecides(db: Tables, receiver: Id, s: Status, authorDomain: Option<string>)
    ensures FilterFromTags(s, authorDomain, receiver, ReadForOne(db, receiver, s, authorDomain, true))
       <==> TagNotWanted(db, receiver, authorDomain, s)
  {
    OneCovers(db, s, authorDomain);
    var notifying := (receiver, s.author) in db.follows && db.follows[(receiver, s.author)].notify;
    CoveringScopeDecidesTags(db, receiver, Home, OneScope(db, s, authorDomain), notifying, authorDomain, s);
  }

  // ── Lists ───────────────────────────────────────────────────────────────

  /** `FeedManager#filter_from_list?`, as `fan_out_lists` writes it. */
  predicate FilteredFromList(s: Status, owner: Id, repliesPolicy: int, listed: bool) {
    && s.reply
    && s.inReplyToAccount != Some(s.author)
    && s.inReplyToAccount != Some(owner)
    && repliesPolicy != FOLLOWED
    && !(repliesPolicy == LIST && listed)
  }

  /** The owner's crutches, with `crutches_following` for the list. */
  function ListCrutches(owner: Crutches, s: Status, repliesPolicy: int, listed: bool): Crutches {
    owner.(following :=
             if repliesPolicy == FOLLOWED then owner.following
             else if repliesPolicy == LIST then if listed then Opt(s.inReplyToAccount) else {}
             else {},
           exclusiveListUsers := {},
           notifying := false)
  }

  function Listed(db: Tables, list: Id, s: Status): bool {
    s.inReplyToAccount.Some? && (list, s.inReplyToAccount.value) in db.members
  }

  /** Whether the live fan-out keeps a status out of a list. */
  predicate FanOutKeepsOut(
    db: Tables, list: Id, owner: Id, repliesPolicy: int, s: Status, authorDomain: Option<string>)
  {
    var listed := Listed(db, list, s);
    var c := ListCrutches(ReadForOne(db, owner, s, authorDomain, false), s, repliesPolicy, listed);
    || FilteredFromList(s, owner, repliesPolicy, listed)
    || FilterResult(s, owner, c, ListFeed(list, repliesPolicy)).Some?
  }

  /** Whether populating or merging into it does, whatever batch it reads. */
  predicate PopulationKeepsOut(
    db: Tables, list: Id, owner: Id, repliesPolicy: int, s: Status, statuses: set<Status>)
  {
    var feed := ListFeed(list, repliesPolicy);
    FilterResult(s, owner, ReadWithin(db, owner, feed, BuildScope(db, statuses), false), feed).Some?
  }

  /** The fan-out's crutches for a list are those read for the list itself. */
  lemma ListCrutchesAreRead(
    db: Tables, list: Id, owner: Id, repliesPolicy: int, s: Status, authorDomain: Option<string>)
    ensures ListCrutches(ReadForOne(db, owner, s, authorDomain, false), s, repliesPolicy, Listed(db, list, s))
         == ReadWithin(db, owner, ListFeed(list, repliesPolicy), OneScope(db, s, authorDomain), false)
  {
    var c := ListCrutches(ReadForOne(db, owner, s, authorDomain, false), s, repliesPolicy, Listed(db, list, s));
    var want := ReadWithin(db, owner, ListFeed(list, repliesPolicy), OneScope(db, s, authorDomain), false);
    assert c.following == want.following;
    assert c.exclusiveListUsers == want.exclusiveListUsers;
  }

  /** Live fan-out and population keep the same statuses out of a list, but for
      the owner's own: those only the fan-out's separate test can keep out. */
  lemma ListAdmissionAgrees(
    db: Tables, list: Id, owner: Id, repliesPolicy: int, s: Status, authorDomain: Option<string>,
    statuses: set<Status>)
    requires Joined(s) && s in statuses
    ensures PopulationKeepsOut(db, list, owner, repliesPolicy, s, statuses)
       <==> Verdict(db, owner, ListFeed(list, repliesPolicy), s).Some?
    ensures FanOutKeepsOut(db, list, owner, repliesPolicy, s, authorDomain)
       <==> PopulationKeepsOut(db, list, owner, repliesPolicy, s, statuses)
            || (owner == s.author && FilteredFromList(s, owner, repliesPolicy, Listed(db, list, s)))
  {
    var feed := ListFeed(list, repliesPolicy);
    BuildCovers(db, statuses, s);
    OneCovers(db, s, authorDomain);
    CoveringScopeDecides(db, owner, feed, BuildScope(db, statuses), false, s);
    CoveringScopeDecides(db, owner, feed, OneScope(db, s, authorDomain), false, s);
    ListCrutchesAreRead(db, list, owner, repliesPolicy, s, authorDomain);
  }

  /** Of the owner's own statuses, populating and merging keep out none, and the
      fan-out those replies to someone else that the list's policy does not want:
      with `FOLLOWED` none, with `LIST` those to whom the list does not hold, and
      otherwise every one. */
  lemma OwnersOwnStatuses(
    db: Tables, list: Id, owner: Id, repliesPolicy: int, s: Status, authorDomain: Option<string>,
    statuses: set<Status>)
    requires s.author == owner
    ensures !PopulationKeepsOut(db, list, owner, repliesPolicy, s, statuses)
    ensures FanOutKeepsOut(db, list, owner, repliesPolicy, s, authorDomain) <==>
              && s.reply && s.inReplyToAccount != Some(owner)
              && match repliesPolicy
                 case 0 => s.inReplyToAccount.None? || (list, s.inReplyToAccount.value) !in db.members
                 case 1 => false
                 case _ => true
  {
  }

  /** Who is notified of a status: those who follow its author and asked to be. */
  lemma NotifiedWhenAsked(db: Tables, receiver: Id, s: Status, authorDomain: Option<string>, home: bool)
    ensures ReadForOne(db, receiver, s, authorDomain, home).notifying <==>
              (receiver, s.author) in db.follows && db.follows[(receiver, s.author)].notify
  {
  }

  /** The owner's own reply to someone the list does not hold is such a one:
      merging the owner into a list of its own shows it, and the live fan-out
      does not. Populating never reads the owner, whose membership hangs on no
      follow. */
  lemma OwnersReplyDiffers(db: Tables, list: Id, owner: Id, to: Id, id: Id, parent: Id)
    requires owner != to && (list, to) !in db.members
    ensures var s := Status(id, owner, true, Some(parent), Some(to), None, None, None);
            && FanOutKeepsOut(db, list, owner, LIST, s, None)
            && !PopulationKeepsOut(db, list, owner, LIST, s, {s})
  {
  }
}

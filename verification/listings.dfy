/** The two listings that page by keyset: an issue's events, and a project's issues by
    one of three columns under filters. */
module Listings {
  import opened Wrappers
  import opened KeysetPaging

  datatype Event = Event(
    project: int,
    issue: int,
    timestamp: string,
    release: Option<string>,
    environment: Option<string>)

  datatype Issue = Issue(
    project: int,
    status: string,
    level: string,
    title: string,
    firstSeen: string,
    lastSeen: string,
    eventCount: int)

  datatype IssueQuery = IssueQuery(
    status: Option<string>,
    level: Option<string>,
    release: Option<string>,
    environment: Option<string>,
    query: Option<string>,
    sort: Option<string>)

  /** The sort column: `last_seen` unless one of the others is named. */
  function IssueKey(q: IssueQuery, issue: Issue): SortKey {
    if q.sort == Some("first_seen") then Stamp(issue.firstSeen)
    else if q.sort == Some("event_count") || q.sort == Some("events") then Count(issue.eventCount)
    else Stamp(issue.lastSeen)
  }

  predicate Agrees(wanted: Option<string>, actual: Option<string>) {
    wanted.None? || wanted == actual
  }

  /** The filters; release and environment ask for one event that has both. `like` is
      the database's LIKE. */
  predicate IssueMatches(like: (string, string) -> bool, q: IssueQuery, project: int, events: map<int, Event>, id: int, issue: Issue) {
    && issue.project == project
    && issue.status == (if q.status.Some? then q.status.value else "unresolved")
    && Agrees(q.level, Some(issue.level))
    && (q.release.Some? || q.environment.Some? ==>
        exists e | e in events :: events[e].issue == id && events[e].project == project
                                  && Agrees(q.release, events[e].release) && Agrees(q.environment, events[e].environment))
    && (q.query.None? || q.query.value == "" || like(issue.title, "%" + q.query.value + "%"))
  }

  function MatchingIssues(like: (string, string) -> bool, q: IssueQuery, project: int,
                          issues: map<int, Issue>, events: map<int, Event>): set<Ref> {
    Matching(issues, (id, issue) => IssueMatches(like, q, project, events, id, issue), issue => IssueKey(q, issue))
  }

  function EventsOf(issue: int, events: map<int, Event>): set<Ref> {
    Matching(events, (_, event: Event) => event.issue == issue, (event: Event) => Stamp(event.timestamp))
  }

  /** What the query asks of an issue: its project and status, unresolved if none is named,
      and each filter that is given. */
  ghost predicate Passes(like: (string, string) -> bool, q: IssueQuery, project: int, events: map<int, Event>, id: int, issue: Issue) {
    && issue.project == project
    && (q.status.None? ==> issue.status == "unresolved")
    && (q.status.Some? ==> issue.status == q.status.value)
    && (q.level.Some? ==> issue.level == q.level.value)
    && (q.release.Some? || q.environment.Some? ==>
        exists e | e in events ::
          && events[e].issue == id && events[e].project == project
          && (q.release.Some? ==> events[e].release == q.release)
          && (q.environment.Some? ==> events[e].environment == q.environment))
    && (q.query.Some? && |q.query.value| > 0 ==> like(issue.title, "%" + q.query.value + "%"))
  }

  /** The value of the column the query sorts by. */
  predicate SortedBy(sort: Option<string>, issue: Issue, key: SortKey) {
    match sort
    case Some("first_seen") => key == Stamp(issue.firstSeen)
    case Some("event_count") => key == Count(issue.eventCount)
    case Some("events") => key == Count(issue.eventCount)
    case _ => key == Stamp(issue.lastSeen)
  }

  lemma PassesIsMatches(like: (string, string) -> bool, q: IssueQuery, project: int, events: map<int, Event>, id: int, issue: Issue)
    ensures Passes(like, q, project, events, id, issue) <==> IssueMatches(like, q, project, events, id, issue)
  {
  }

  lemma KeyIsSortColumn(q: IssueQuery, issue: Issue)
    ensures SortedBy(q.sort, issue, IssueKey(q, issue))
  {
  }

  lemma MatchesAreWalked(codec: Codec, like: (string, string) -> bool, q: IssueQuery, project: int,
                         issues: map<int, Issue>, events: map<int, Event>, limits: nat -> int, id: int)
    requires Faithful(codec, MatchingIssues(like, q, project, issues, events)) && id in issues
    ensures var walked := Walk(codec, MatchingIssues(like, q, project, issues, events), limits, 0, None);
            && Descending(walked) && (forall i, j | 0 <= i < j < |walked| :: walked[i].id != walked[j].id)
            && (IssueMatches(like, q, project, events, id, issues[id]) <==> exists r <- walked :: r.id == id)
            && (forall r <- walked | r.id == id :: r == Ref(IssueKey(q, issues[id]), id))
  {
    hide Descending;
    EveryRowOnce(codec, issues, (k, issue) => IssueMatches(like, q, project, events, k, issue), issue => IssueKey(q, issue), limits);
    hide IssueMatches, Walk, IssueKey;
  }

  /** Walking a project's issues meets every issue that passes the filters once, greatest
      sort value first. */
  lemma EveryIssueOnce(codec: Codec, like: (string, string) -> bool, q: IssueQuery, project: int,
                       issues: map<int, Issue>, events: map<int, Event>, limits: nat -> int, id: int)
    requires Faithful(codec, MatchingIssues(like, q, project, issues, events)) && id in issues
    ensures var walked := Walk(codec, MatchingIssues(like, q, project, issues, events), limits, 0, None);
            && Descending(walked)
            && (forall i, j | 0 <= i < j < |walked| :: walked[i].id != walked[j].id)
            && (Passes(like, q, project, events, id, issues[id]) <==> exists key :: Ref(key, id) in walked)
            && (forall key | Ref(key, id) in walked :: SortedBy(q.sort, issues[id], key))
  {
    MatchesAreWalked(codec, like, q, project, issues, events, limits, id);
    PassesIsMatches(like, q, project, events, id, issues[id]);
    KeyIsSortColumn(q, issues[id]);
    hide IssueMatches, Passes, Walk, Descending, SortedBy, IssueKey;
  }

  /** Walking an issue's events meets each of them once, newest first. */
  lemma EveryEventOnce(codec: Codec, issue: int, events: map<int, Event>, limits: nat -> int, id: int)
    requires Faithful(codec, EventsOf(issue, events)) && id in events
    ensures var walked := Walk(codec, EventsOf(issue, events), limits, 0, None);
            && Descending(walked)
            && (forall i, j | 0 <= i < j < |walked| :: walked[i].id != walked[j].id)
            && (events[id].issue == issue <==> Ref(Stamp(events[id].timestamp), id) in walked)
  {
    EveryRowOnce(codec, events, (_, event: Event) => event.issue == issue, (event: Event) => Stamp(event.timestamp), limits);
  }
}

/** `waitForContainerToTerminateAndReappear`: a two-state filter over the
    merged event/error feed. It first waits for the old container to be
    reported Terminated, then takes the first Running container of the same
    parent service as the replacement. Any feed error ends the wait. */
module Watcher {
  import opened Errors
  import opened Strings
  import opened Tutum
  import opened Lookup

  /** A container event reporting that the container `oldUuid` terminated. */
  predicate IsTerminationOf(item: FeedItem, oldUuid: string) {
    && item.Notice?
    && item.event.kind == "container"
    && Contains(item.event.resourceUri, oldUuid)
    && item.event.state == "Terminated"
  }

  /** A container event reporting that a container of the parent service runs. */
  predicate IsSiblingRunning(item: FeedItem, parentUuid: string) {
    && item.Notice?
    && item.event.kind == "container"
    && ParentsContain(item.event.parents, parentUuid)
    && item.event.state == "Running"
  }

  /** `Watching` means that the feed ran out while the source keeps waiting. */
  datatype WatchResult = Replaced(container: Container) | Broken(error: Error) | Watching

  /** Re-fetching the container an event names (`GetContainer` on its URI). */
  function Refetch(uri: string, lookup: string -> Result<Container>): WatchResult {
    match lookup(GetUuidFromUri(uri))
    case Ok(c) => Replaced(c)
    case Err(e) => Broken(e)
  }

  /** The loop body; `didTerminate` is the watcher's single bit of state. */
  function WatchFrom(oldUuid: string, parentUuid: string, feed: seq<FeedItem>,
                     lookup: string -> Result<Container>, didTerminate: bool): WatchResult
    decreases |feed|
  {
    if |feed| == 0 then Watching
    else match feed[0]
      case FeedError(message) => Broken(Remote(message))
      case Notice(event) =>
        var terminated := didTerminate || IsTerminationOf(feed[0], oldUuid);
        if terminated && IsSiblingRunning(feed[0], parentUuid) then Refetch(event.resourceUri, lookup)
        else WatchFrom(oldUuid, parentUuid, feed[1..], lookup, terminated)
  }

  function WaitForContainerToTerminateAndReappear(container: Container, parentService: Service,
                                                  feed: seq<FeedItem>, lookup: string -> Result<Container>): WatchResult
  {
    WatchFrom(container.uuid, parentService.uuid, feed, lookup, false)
  }

  // ----- Reference description of when the wait ends -----

  ghost predicate TerminatedBefore(feed: seq<FeedItem>, oldUuid: string, j: int) {
    exists i :: 0 <= i < j && i < |feed| && IsTerminationOf(feed[i], oldUuid)
  }

  /** Item `j` ends the wait: a feed error, or a Running sibling that comes
      strictly after a termination of the old container. */
  ghost predicate Decides(feed: seq<FeedItem>, oldUuid: string, parentUuid: string, didTerminate: bool, j: int) {
    && 0 <= j < |feed|
    && (|| feed[j].FeedError?
        || (IsSiblingRunning(feed[j], parentUuid) && (didTerminate || TerminatedBefore(feed, oldUuid, j))))
  }

  /** What the deciding item yields. */
  function Verdict(item: FeedItem, lookup: string -> Result<Container>): WatchResult {
    match item
    case FeedError(message) => Broken(Remote(message))
    case Notice(event) => Refetch(event.resourceUri, lookup)
  }

  lemma DecidesShift(feed: seq<FeedItem>, oldUuid: string, parentUuid: string, didTerminate: bool, j: int)
    requires 0 < j < |feed|
    ensures Decides(feed[1..], oldUuid, parentUuid, didTerminate || IsTerminationOf(feed[0], oldUuid), j - 1)
        <==> Decides(feed, oldUuid, parentUuid, didTerminate, j)
  {
    if TerminatedBefore(feed, oldUuid, j) && !IsTerminationOf(feed[0], oldUuid) {
      var i :| 0 <= i < j && i < |feed| && IsTerminationOf(feed[i], oldUuid);
      assert feed[1..][i - 1] == feed[i];
    }
    if TerminatedBefore(feed[1..], oldUuid, j - 1) {
      var i :| 0 <= i < j - 1 && i < |feed[1..]| && IsTerminationOf(feed[1..][i], oldUuid);
      assert feed[i + 1] == feed[1..][i];
    }
    if IsTerminationOf(feed[0], oldUuid) {
      assert TerminatedBefore(feed, oldUuid, j);
    }
  }

  lemma {:induction false} WatchFromFirstDeciding(oldUuid: string, parentUuid: string, feed: seq<FeedItem>,
                                                  lookup: string -> Result<Container>, didTerminate: bool, j: nat)
    requires Decides(feed, oldUuid, parentUuid, didTerminate, j)
    requires forall k :: 0 <= k < j ==> !Decides(feed, oldUuid, parentUuid, didTerminate, k)
    ensures WatchFrom(oldUuid, parentUuid, feed, lookup, didTerminate) == Verdict(feed[j], lookup)
    decreases j
  {
    if j > 0 {
      assert !Decides(feed, oldUuid, parentUuid, didTerminate, 0);
      var t := didTerminate || IsTerminationOf(feed[0], oldUuid);
      DecidesShift(feed, oldUuid, parentUuid, didTerminate, j);
      forall k | 0 <= k < j - 1
        ensures !Decides(feed[1..], oldUuid, parentUuid, t, k)
      {
        DecidesShift(feed, oldUuid, parentUuid, didTerminate, k + 1);
      }
      WatchFromFirstDeciding(oldUuid, parentUuid, feed[1..], lookup, t, j - 1);
      assert feed[1..][j - 1] == feed[j];
    }
  }

  lemma {:induction false} WatchFromNoneDeciding(oldUuid: string, parentUuid: string, feed: seq<FeedItem>,
                                                 lookup: string -> Result<Container>, didTerminate: bool)
    requires forall k :: 0 <= k < |feed| ==> !Decides(feed, oldUuid, parentUuid, didTerminate, k)
    ensures WatchFrom(oldUuid, parentUuid, feed, lookup, didTerminate) == Watching
    decreases |feed|
  {
    if |feed| > 0 {
      assert !Decides(feed, oldUuid, parentUuid, didTerminate, 0);
      var t := didTerminate || IsTerminationOf(feed[0], oldUuid);
      forall k | 0 <= k < |feed| - 1
        ensures !Decides(feed[1..], oldUuid, parentUuid, t, k)
      {
        DecidesShift(feed, oldUuid, parentUuid, didTerminate, k + 1);
      }
      WatchFromNoneDeciding(oldUuid, parentUuid, feed[1..], lookup, t);
    }
  }

  /** The wait ends at the first deciding item: a feed error at any point
      ends it with that error; otherwise the first Running sibling strictly
      after a termination of the old container is re-fetched as the
      replacement. */
  lemma WatchDecidedByFirstDecidingItem(container: Container, parentService: Service, feed: seq<FeedItem>,
                                        lookup: string -> Result<Container>, j: nat)
    requires Decides(feed, container.uuid, parentService.uuid, false, j)
    requires forall k :: 0 <= k < j ==> !Decides(feed, container.uuid, parentService.uuid, false, k)
    ensures WaitForContainerToTerminateAndReappear(container, parentService, feed, lookup) == Verdict(feed[j], lookup)
  {
    WatchFromFirstDeciding(container.uuid, parentService.uuid, feed, lookup, false, j);
  }

  /** Without a deciding item the watcher is still waiting when the feed ends. */
  lemma WatchWaitsWithoutDecidingItem(container: Container, parentService: Service, feed: seq<FeedItem>,
                                      lookup: string -> Result<Container>)
    requires forall k :: 0 <= k < |feed| ==> !Decides(feed, container.uuid, parentService.uuid, false, k)
    ensures WaitForContainerToTerminateAndReappear(container, parentService, feed, lookup) == Watching
  {
    WatchFromNoneDeciding(container.uuid, parentService.uuid, feed, lookup, false);
  }

  /** Events before the old container's termination, Running siblings
      included, are ignored: dropping them changes nothing. */
  lemma {:induction false} EventsBeforeTerminationIgnored(container: Container, parentService: Service,
                                                          before: seq<FeedItem>, rest: seq<FeedItem>,
                                                          lookup: string -> Result<Container>)
    requires forall k :: 0 <= k < |before| ==> before[k].Notice? && !IsTerminationOf(before[k], container.uuid)
    ensures WaitForContainerToTerminateAndReappear(container, parentService, before + rest, lookup)
         == WaitForContainerToTerminateAndReappear(container, parentService, rest, lookup)
    decreases |before|
  {
    if |before| == 0 {
      assert before + rest == rest;
    } else {
      assert (before + rest)[0] == before[0];
      assert (before + rest)[1..] == before[1..] + rest;
      assert WatchFrom(container.uuid, parentService.uuid, before + rest, lookup, false)
          == WatchFrom(container.uuid, parentService.uuid, before[1..] + rest, lookup, false);
      EventsBeforeTerminationIgnored(container, parentService, before[1..], rest, lookup);
    }
  }

  /** After the termination, the first Running sibling wins: events in
      between that are neither errors nor Running siblings are skipped. */
  lemma TerminationThenRunningMatches(container: Container, parentService: Service,
                                      before: seq<FeedItem>, term: FeedItem, between: seq<FeedItem>,
                                      running: FeedItem, rest: seq<FeedItem>,
                                      lookup: string -> Result<Container>)
    requires forall k :: 0 <= k < |before| ==> before[k].Notice? && !IsTerminationOf(before[k], container.uuid)
    requires IsTerminationOf(term, container.uuid)
    requires forall k :: 0 <= k < |between| ==> between[k].Notice? && !IsSiblingRunning(between[k], parentService.uuid)
    requires IsSiblingRunning(running, parentService.uuid)
    ensures WaitForContainerToTerminateAndReappear(container, parentService, before + [term] + between + [running] + rest, lookup)
         == Refetch(running.event.resourceUri, lookup)
  {
    var feed := [term] + between + [running] + rest;
    var j := 1 + |between|;
    assert feed[j] == running;
    assert feed[0] == term;
    assert TerminatedBefore(feed, container.uuid, j);
    assert Decides(feed, container.uuid, parentService.uuid, false, j);
    forall k | 0 <= k < j
      ensures !Decides(feed, container.uuid, parentService.uuid, false, k)
    {
      if k > 0 {
        assert feed[k] == between[k - 1];
      }
    }
    WatchDecidedByFirstDecidingItem(container, parentService, feed, lookup, j);
    assert before + [term] + between + [running] + rest == before + feed;
    EventsBeforeTerminationIgnored(container, parentService, before, feed, lookup);
  }

  /** A Running sibling that arrives before the termination does not match:
      with nothing after the termination, the watcher is still waiting. This
      is the two-item instance of `EventsBeforeTerminationIgnored`. */
  lemma RunningBeforeTerminationDoesNotMatch(container: Container, parentService: Service,
                                             running: FeedItem, term: FeedItem,
                                             lookup: string -> Result<Container>)
    requires IsSiblingRunning(running, parentService.uuid)
    requires IsTerminationOf(term, container.uuid)
    ensures WaitForContainerToTerminateAndReappear(container, parentService, [running, term], lookup) == Watching
  {
    EventsBeforeTerminationIgnored(container, parentService, [running], [term], lookup);
    assert [running] + [term] == [running, term];
    assert !IsSiblingRunning(term, parentService.uuid);
    assert WatchFrom(container.uuid, parentService.uuid, [term], lookup, false)
        == WatchFrom(container.uuid, parentService.uuid, [], lookup, true);
  }
}

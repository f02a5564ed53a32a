/** Advertisements: their lifecycle status, the dashboard list, and the cache in front of it. */
module Ads {
  import opened Prelude

  type AdId = nat

  datatype Position = DashboardTop | DashboardMiddle | DashboardSidebar

  datatype Status = Active | Inactive | Scheduled | Expired

  /** `content` is everything a reader sees that plays no part in selection or order. */
  datatype Ad = Ad(status: Status, position: Option<Position>, startDate: Option<int>, endDate: Option<int>, priority: int,
                   createdAt: int, content: string, impressions: nat, clicks: nat)

  /** A list is cached under a position, or under none for all of them. */
  datatype CachedList = CachedList(list: seq<(AdId, Ad)>, expiresAt: int)

  datatype State = State(now: int, ads: map<AdId, Ad>, cache: map<Option<Position>, CachedList>, nextId: AdId)

  datatype AdError = ImageRequired | TitleRequired | EndBeforeStart | UploadFailed | AdNotFound

  const CACHE_TTL := 300 * 1000

  function CacheKeys(): set<Option<Position>> {
    {None, Some(DashboardTop), Some(DashboardMiddle), Some(DashboardSidebar)}
  }

  // ----- lifecycle -----

  function LifecycleStatus(startDate: Option<int>, endDate: Option<int>, explicit: Option<Status>, now: int): Result<Status, AdError> {
    if startDate.Some? && endDate.Some? && endDate.value < startDate.value then Err(EndBeforeStart)
    else if explicit == Some(Inactive) then Ok(Inactive)
    else if endDate.Some? && endDate.value < now then Ok(Expired)
    else if startDate.Some? && startDate.value > now then Ok(Scheduled)
    else Ok(if explicit.Some? then explicit.value else Active)
  }

  predicate InDates(ad: Ad, t: int) {
    (ad.startDate.Some? ==> ad.startDate.value <= t) && (ad.endDate.Some? ==> t <= ad.endDate.value)
  }

  predicate Eligible(ad: Ad, position: Option<Position>, t: int) {
    ad.status.Active? && InDates(ad, t) && (position.Some? ==> ad.position == position)
  }

  /** An advertisement saved with the status computed for it is shown at once exactly when its dates include now. */
  lemma ComputedStatusShows(ad: Ad, explicit: Option<Status>, now: int)
    requires explicit.None? || explicit.value.Active?
    requires LifecycleStatus(ad.startDate, ad.endDate, explicit, now) == Ok(ad.status)
    ensures Eligible(ad, None, now) <==> InDates(ad, now)
    ensures ad.status.Scheduled? <==> ad.startDate.Some? && ad.startDate.value > now
  {
  }

  // ----- operations -----

  datatype NewAd = NewAd(status: Option<Status>, startDate: Option<int>, endDate: Option<int>, position: Position, priority: int,
                         content: string, hasImage: bool, hasTitle: bool)

  /** A date that is given may be null, which clears it. */
  datatype Changes = Changes(status: Option<Status>, startDate: Option<Option<int>>, endDate: Option<Option<int>>,
                             position: Option<Position>, priority: Option<int>, content: Option<string>, hasImage: bool)

  datatype Event =
    | Creates(dto: NewAd, uploadOk: bool)
    | Updates(id: AdId, changes: Changes, uploadOk: bool)
    | Deletes(id: AdId)
    | SetsStatus(id: AdId, status: Status)
    | Schedules(id: AdId, start: int, end: Option<int>)
    | SetsPriority(id: AdId, priority: int)
    | Reorders(items: seq<(AdId, int)>)
    | CountsImpression(id: AdId)
    | CountsClick(id: AdId)
    /** A dashboard read; `found` is what the query would return, in its order. */
    | Reads(position: Option<Position>, found: seq<AdId>)
    | Waits(ms: nat)

  datatype Outcome = Done | Failed(error: AdError) | Listed(fromCache: bool, list: seq<(AdId, Ad)>)

  function Invalidated(s: State): State {
    s.(cache := s.cache - CacheKeys())
  }

  function Given<T>(change: Option<T>, current: T): T {
    if change.Some? then change.value else current
  }

  function Created(s: State, dto: NewAd, uploadOk: bool): (State, Outcome) {
    var status := LifecycleStatus(dto.startDate, dto.endDate, dto.status, s.now);
    if !dto.hasImage then (s, Failed(ImageRequired))
    else if status.Err? then (s, Failed(status.error))
    else if !dto.hasTitle then (s, Failed(TitleRequired))
    else if !uploadOk then (s, Failed(UploadFailed))
    else
      var ad := Ad(status.value, Some(dto.position), dto.startDate, dto.endDate, dto.priority, s.now, dto.content, 0, 0);
      (Invalidated(s.(ads := s.ads[s.nextId := ad], nextId := s.nextId + 1)), Done)
  }

  function StatusAfter(ad: Ad, c: Changes, now: int): Result<Status, AdError> {
    var start, end := Given(c.startDate, ad.startDate), Given(c.endDate, ad.endDate);
    if start.Some? && end.Some? && end.value < start.value then Err(EndBeforeStart)
    else if c.startDate.Some? || c.endDate.Some? || c.status.Some? then
      LifecycleStatus(start, end, Some(Given(c.status, ad.status)), now)
    else Ok(ad.status)
  }

  function Changed(ad: Ad, c: Changes, status: Status): Ad {
    ad.(status := status, startDate := Given(c.startDate, ad.startDate), endDate := Given(c.endDate, ad.endDate),
        position := if c.position.Some? then c.position else ad.position, priority := Given(c.priority, ad.priority),
        content := Given(c.content, ad.content))
  }

  function Updated(s: State, id: AdId, c: Changes, uploadOk: bool): (State, Outcome) {
    if id !in s.ads then (s, Failed(AdNotFound))
    else
      var status := StatusAfter(s.ads[id], c, s.now);
      if status.Err? then (s, Failed(status.error))
      else if c.hasImage && !uploadOk then (s, Failed(UploadFailed))
      else (Invalidated(s.(ads := s.ads[id := Changed(s.ads[id], c, status.value)])), Done)
  }

  /** findByIdAndUpdate, then the invalidation. */
  function Replaced(s: State, id: AdId, f: Ad -> Ad): (State, Outcome) {
    if id !in s.ads then (s, Failed(AdNotFound)) else (Invalidated(s.(ads := s.ads[id := f(s.ads[id])])), Done)
  }

  function ScheduledAd(s: State, id: AdId, start: int, end: Option<int>): (State, Outcome) {
    var status := LifecycleStatus(Some(start), end, Some(Active), s.now);
    if status.Err? then (s, Failed(status.error))
    else Replaced(s, id, (ad: Ad) => ad.(startDate := Some(start), endDate := end, status := status.value))
  }

  function Reordered(ads: map<AdId, Ad>, items: seq<(AdId, int)>): map<AdId, Ad> {
    if |items| == 0 then ads
    else
      var before, (id, priority) := Reordered(ads, items[..|items| - 1]), items[|items| - 1];
      if id in before then before[id := before[id].(priority := priority)] else before
  }

  /** A counter is no reason to invalidate. */
  function Counted(s: State, id: AdId, f: Ad -> Ad): (State, Outcome) {
    if id !in s.ads then (s, Failed(AdNotFound)) else (s.(ads := s.ads[id := f(s.ads[id])]), Done)
  }

  function ListOf(ads: map<AdId, Ad>, found: seq<AdId>): (list: seq<(AdId, Ad)>)
    requires forall i :: i in found ==> i in ads
    ensures |list| == |found| && forall k :: 0 <= k < |list| ==> list[k] == (found[k], ads[found[k]])
  {
    seq(|found|, k requires 0 <= k < |found| => (found[k], ads[found[k]]))
  }

  predicate Served(s: State, position: Option<Position>) {
    position in s.cache && s.now < s.cache[position].expiresAt
  }

  function Dashboard(s: State, position: Option<Position>, found: seq<AdId>): (State, Outcome)
    requires forall i :: i in found ==> i in s.ads
  {
    if Served(s, position) then (s, Listed(true, s.cache[position].list))
    else
      var list := ListOf(s.ads, found);
      (s.(cache := s.cache[position := CachedList(list, s.now + CACHE_TTL)]), Listed(false, list))
  }

  function AddImpression(ad: Ad): Ad { ad.(impressions := ad.impressions + 1) }

  function AddClick(ad: Ad): Ad { ad.(clicks := ad.clicks + 1) }

  /** The query returns the eligible advertisements, best first, ties in any order. */
  ghost predicate Query(ads: map<AdId, Ad>, position: Option<Position>, t: int, found: seq<AdId>) {
    && (forall i :: i in found <==> i in ads && Eligible(ads[i], position, t))
    && (forall k, l :: 0 <= k < l < |found| ==> found[k] != found[l] && !Before(ads[found[l]], ads[found[k]]))
  }

  /** Higher priority first, then the more recent. */
  predicate Before(a: Ad, b: Ad) {
    a.priority > b.priority || (a.priority == b.priority && a.createdAt > b.createdAt)
  }

  ghost predicate Fits(s: State, e: Event) {
    e.Reads? ==> Query(s.ads, e.position, s.now, e.found)
  }

  function Step(s: State, e: Event): (State, Outcome)
    requires e.Reads? ==> forall i :: i in e.found ==> i in s.ads
  {
    match e
    case Creates(dto, uploadOk) => Created(s, dto, uploadOk)
    case Updates(id, changes, uploadOk) => Updated(s, id, changes, uploadOk)
    case Deletes(id) => if id !in s.ads then (s, Failed(AdNotFound)) else (Invalidated(s.(ads := s.ads - {id})), Done)
    case SetsStatus(id, status) => Replaced(s, id, (ad: Ad) => ad.(status := status))
    case Schedules(id, start, end) => ScheduledAd(s, id, start, end)
    case SetsPriority(id, priority) => Replaced(s, id, (ad: Ad) => ad.(priority := priority))
    case Reorders(items) => (Invalidated(s.(ads := Reordered(s.ads, items))), Done)
    case CountsImpression(id) => Counted(s, id, AddImpression)
    case CountsClick(id) => Counted(s, id, AddClick)
    case Reads(position, found) => Dashboard(s, position, found)
    case Waits(ms) => (s.(now := s.now + ms), Done)
  }

  // ----- what is listed, and for how long -----

  /** A query finds what is active, started, not ended and in its place; by priority, and the newer first among equals. */
  lemma ListedInOrder(ads: map<AdId, Ad>, position: Option<Position>, t: int, found: seq<AdId>)
    ensures Query(ads, position, t, found)
            <==> && (forall i :: i in found <==>
                       && i in ads && ads[i].status == Active
                       && (ads[i].startDate == None || ads[i].startDate.value <= t) && (ads[i].endDate == None || ads[i].endDate.value >= t)
                       && (position == None || ads[i].position == position))
                 && (forall k, l :: 0 <= k < l < |found| ==>
                       && found[k] != found[l] && found[k] in ads && found[l] in ads
                       && ads[found[k]].priority >= ads[found[l]].priority
                       && (ads[found[k]].priority == ads[found[l]].priority ==> ads[found[k]].createdAt >= ads[found[l]].createdAt))
  {
    forall k | 0 <= k < |found| ensures found[k] in found {
    }
  }

  /** The status of an advertisement with these dates: an end before the start is refused, and switched off stays off. */
  lemma StatusOfDates(startDate: Option<int>, endDate: Option<int>, explicit: Option<Status>, now: int)
    ensures var r := LifecycleStatus(startDate, endDate, explicit, now);
            && (r == Err(EndBeforeStart) <==> startDate != None && endDate != None && endDate.value < startDate.value)
            && (r.Ok? && explicit == Some(Inactive) ==> r.value == Inactive)
            && (r.Ok? && explicit != Some(Inactive) && endDate != None && endDate.value < now ==> r.value == Expired)
            && (r.Ok? && explicit != Some(Inactive) && !(endDate != None && endDate.value < now) && startDate != None && startDate.value > now ==>
                  r.value == Scheduled)
            && (r.Ok? && !(endDate != None && endDate.value < now) && !(startDate != None && startDate.value > now) ==>
                  r.value == if explicit == None then Active else explicit.value)
  {
  }

  /** A list that was read is given again, unchanged, for three hundred seconds; then the next is read. */
  lemma ListLasts(s: State, position: Option<Position>, found: seq<AdId>, ms: nat, later: seq<AdId>)
    requires forall i :: i in found || i in later ==> i in s.ads
    requires !(position in s.cache && s.now < s.cache[position].expiresAt)
    ensures var (read, first) := Dashboard(s, position, found);
            var (_, again) := Dashboard(read.(now := s.now + ms), position, later);
            && first.Listed? && !first.fromCache && again.Listed?
            && (again.fromCache <==> ms < 300_000) && (again.fromCache ==> again.list == first.list)
            && |first.list| == |found| && forall k :: 0 <= k < |found| ==> first.list[k] == (found[k], s.ads[found[k]])
  {
  }

  /** A new advertisement is refused for the first of these reasons; otherwise it is there, as given, with the status of its dates. */
  lemma CreationAnswered(s: State, dto: NewAd, uploadOk: bool)
    ensures var (after, r) := Created(s, dto, uploadOk);
            if !dto.hasImage then after == s && r == Failed(ImageRequired)
            else if dto.startDate != None && dto.endDate != None && dto.endDate.value < dto.startDate.value
            then after == s && r == Failed(EndBeforeStart)
            else if !dto.hasTitle then after == s && r == Failed(TitleRequired)
            else if !uploadOk then after == s && r == Failed(UploadFailed)
            else
              && r == Done && after.nextId == s.nextId + 1 && after.now == s.now && after.ads.Keys == s.ads.Keys + {s.nextId}
              && (forall i :: i in s.ads && i != s.nextId ==> after.ads[i] == s.ads[i])
              && after.ads[s.nextId] == Ad(after.ads[s.nextId].status, Some(dto.position), dto.startDate, dto.endDate, dto.priority, s.now,
                                           dto.content, 0, 0)
              && Ok(after.ads[s.nextId].status) == LifecycleStatus(dto.startDate, dto.endDate, dto.status, s.now)
  {
  }

  /** A change leaves every field that it does not give as it was; the status is worked out anew only for new dates or a new status. */
  lemma ChangeAnswered(s: State, id: AdId, c: Changes, uploadOk: bool)
    requires id in s.ads
    ensures var (after, r) := Updated(s, id, c, uploadOk);
            var ad := s.ads[id];
            var start := if c.startDate == None then ad.startDate else c.startDate.value;
            var end := if c.endDate == None then ad.endDate else c.endDate.value;
            if start != None && end != None && end.value < start.value then after == s && r == Failed(EndBeforeStart)
            else if c.hasImage && !uploadOk then after == s && r == Failed(UploadFailed)
            else
              && r == Done && after.ads.Keys == s.ads.Keys && (forall i :: i in s.ads && i != id ==> after.ads[i] == s.ads[i])
              && after.ads[id] == Ad(after.ads[id].status, if c.position == None then ad.position else c.position, start, end,
                                     if c.priority == None then ad.priority else c.priority.value, ad.createdAt,
                                     if c.content == None then ad.content else c.content.value, ad.impressions, ad.clicks)
              && (if c.startDate == None && c.endDate == None && c.status == None then after.ads[id].status == ad.status
                  else Ok(after.ads[id].status)
                       == LifecycleStatus(start, end, Some(if c.status == None then ad.status else c.status.value), s.now))
  {
  }

  /** The other operations change one thing of one advertisement, and nothing if there is no such advertisement. */
  lemma OtherChangesAnswered(s: State, id: AdId, status: Status, start: int, end: Option<int>, priority: int)
    requires id in s.ads
    ensures Step(s, SetsStatus(id, status)).0.ads == s.ads[id := s.ads[id].(status := status)]
    ensures Step(s, SetsPriority(id, priority)).0.ads == s.ads[id := s.ads[id].(priority := priority)]
    ensures Step(s, CountsImpression(id)).0 == s.(ads := s.ads[id := s.ads[id].(impressions := s.ads[id].impressions + 1)])
    ensures Step(s, CountsClick(id)).0 == s.(ads := s.ads[id := s.ads[id].(clicks := s.ads[id].clicks + 1)])
    ensures Step(s, Deletes(id)).0.ads == s.ads - {id}
    ensures if end != None && end.value < start then Step(s, Schedules(id, start, end)) == (s, Failed(EndBeforeStart))
            else Step(s, Schedules(id, start, end)).0.ads
                 == s.ads[id := s.ads[id].(startDate := Some(start), endDate := end,
                                           status := if end != None && end.value < s.now then Expired
                                                     else if start > s.now then Scheduled else Active)]
  {
  }

  lemma {:induction false} NotMentioned(ads: map<AdId, Ad>, items: seq<(AdId, int)>, id: AdId)
    requires id in ads && forall k :: 0 <= k < |items| ==> items[k].0 != id
    ensures id in Reordered(ads, items) && Reordered(ads, items)[id] == ads[id]
  {
    if |items| > 0 {
      var before := items[..|items| - 1];
      forall k | 0 <= k < |before| ensures before[k].0 != id {
        assert before[k] == items[k];
      }
      NotMentioned(ads, before, id);
    }
  }

  lemma {:induction false} ReorderKeepsAds(ads: map<AdId, Ad>, items: seq<(AdId, int)>)
    ensures Reordered(ads, items).Keys == ads.Keys
    ensures forall id :: id in ads ==> Reordered(ads, items)[id] == ads[id].(priority := Reordered(ads, items)[id].priority)
  {
    if |items| > 0 {
      ReorderKeepsAds(ads, items[..|items| - 1]);
    }
  }

  /** A new order gives each advertisement it mentions the priority it mentions last, and changes nothing else. */
  lemma {:induction false} LastMentionWins(ads: map<AdId, Ad>, items: seq<(AdId, int)>, id: AdId, k: nat)
    requires id in ads && k < |items| && items[k].0 == id && forall l :: k < l < |items| ==> items[l].0 != id
    ensures id in Reordered(ads, items) && Reordered(ads, items)[id] == ads[id].(priority := items[k].1)
  {
    var n := |items| - 1;
    ReorderKeepsAds(ads, items[..n]);
    if k < n {
      assert items[..n][k] == items[k];
      forall l | k < l < n ensures items[..n][l].0 != id {
        assert items[..n][l] == items[l];
      }
      LastMentionWins(ads, items[..n], id, k);
    }
  }

  // ----- the service -----

  class AdvertisementService {
    var now: int
    var ads: map<AdId, Ad>
    var cache: map<Option<Position>, CachedList>
    var nextId: AdId

    constructor (now: int)
      ensures View() == State(now, map[], map[], 0)
    {
      this.now := now;
      ads, cache, nextId := map[], map[], 0;
    }

    function View(): State
      reads this
    {
      State(now, ads, cache, nextId)
    }

    method InvalidateDashboardCache()
      modifies this`cache
      ensures View() == Invalidated(old(View()))
    {
      var keysToDelete := CacheKeys();
      cache := cache - keysToDelete;
    }

    method Create(dto: NewAd, uploadOk: bool) returns (r: Outcome)
      modifies this
      ensures (View(), r) == Step(old(View()), Creates(dto, uploadOk))
    {
      if !dto.hasImage {
        return Failed(ImageRequired);
      }
      var computedStatus := LifecycleStatus(dto.startDate, dto.endDate, dto.status, now);
      if computedStatus.Err? {
        return Failed(computedStatus.error);
      }
      if !dto.hasTitle {
        return Failed(TitleRequired);
      }
      if !uploadOk {
        return Failed(UploadFailed);
      }
      ads := ads[nextId := Ad(computedStatus.value, Some(dto.position), dto.startDate, dto.endDate, dto.priority, now, dto.content, 0, 0)];
      nextId := nextId + 1;
      InvalidateDashboardCache();
      r := Done;
    }

    method StatusFor(ad: Ad, dto: Changes) returns (status: Result<Status, AdError>)
      ensures status == StatusAfter(ad, dto, now)
    {
      var mergedStartDate := if dto.startDate.Some? then dto.startDate.value else ad.startDate;
      var mergedEndDate := if dto.endDate.Some? then dto.endDate.value else ad.endDate;
      if mergedStartDate.Some? && mergedEndDate.Some? && mergedEndDate.value < mergedStartDate.value {
        return Err(EndBeforeStart);
      }
      status := Ok(ad.status);
      if dto.startDate.Some? || dto.endDate.Some? || dto.status.Some? {
        status := LifecycleStatus(mergedStartDate, mergedEndDate, if dto.status.Some? then dto.status else Some(ad.status), now);
      }
    }

    method Update(id: AdId, dto: Changes, uploadOk: bool) returns (r: Outcome)
      modifies this
      ensures (View(), r) == Updated(old(View()), id, dto, uploadOk)
    {
      if id !in ads {
        return Failed(AdNotFound);
      }
      var computedStatus := StatusFor(ads[id], dto);
      if computedStatus.Err? {
        return Failed(computedStatus.error);
      }
      if dto.hasImage && !uploadOk {
        return Failed(UploadFailed);
      }
      var ad := ads[id].(status := computedStatus.value);
      if dto.startDate.Some? { ad := ad.(startDate := dto.startDate.value); }
      if dto.endDate.Some? { ad := ad.(endDate := dto.endDate.value); }
      if dto.position.Some? { ad := ad.(position := dto.position); }
      if dto.priority.Some? { ad := ad.(priority := dto.priority.value); }
      if dto.content.Some? { ad := ad.(content := dto.content.value); }
      assert ad == Changed(ads[id], dto, computedStatus.value);
      ads := ads[id := ad];
      InvalidateDashboardCache();
      r := Done;
    }

    method Delete(id: AdId) returns (r: Outcome)
      modifies this
      ensures (View(), r) == Step(old(View()), Deletes(id))
    {
      if id !in ads {
        return Failed(AdNotFound);
      }
      ads := ads - {id};
      InvalidateDashboardCache();
      r := Done;
    }

    method UpdateStatus(id: AdId, status: Status) returns (r: Outcome)
      modifies this
      ensures (View(), r) == Step(old(View()), SetsStatus(id, status))
    {
      if id !in ads {
        return Failed(AdNotFound);
      }
      ads := ads[id := ads[id].(status := status)];
      InvalidateDashboardCache();
      r := Done;
    }

    method Schedule(id: AdId, startDate: int, endDate: Option<int>) returns (r: Outcome)
      modifies this
      ensures (View(), r) == Step(old(View()), Schedules(id, startDate, endDate))
    {
      var computedStatus := LifecycleStatus(Some(startDate), endDate, Some(Active), now);
      if computedStatus.Err? {
        return Failed(computedStatus.error);
      }
      if id !in ads {
        return Failed(AdNotFound);
      }
      ads := ads[id := ads[id].(startDate := Some(startDate), endDate := endDate, status := computedStatus.value)];
      InvalidateDashboardCache();
      r := Done;
    }

    method UpdatePriority(id: AdId, priority: int) returns (r: Outcome)
      modifies this
      ensures (View(), r) == Step(old(View()), SetsPriority(id, priority))
    {
      if id !in ads {
        return Failed(AdNotFound);
      }
      ads := ads[id := ads[id].(priority := priority)];
      InvalidateDashboardCache();
      r := Done;
    }

    method BulkReorder(items: seq<(AdId, int)>) returns (r: Outcome)
      modifies this
      ensures (View(), r) == Step(old(View()), Reorders(items))
    {
      ghost var before := ads;
      for i := 0 to |items|
        invariant ads == Reordered(before, items[..i])
        invariant View() == old(View()).(ads := ads)
      {
        assert items[..i + 1][..i] == items[..i];
        var (id, priority) := items[i];
        if id in ads {
          ads := ads[id := ads[id].(priority := priority)];
        }
      }
      assert items[..|items|] == items;
      InvalidateDashboardCache();
      r := Done;
    }

    method RecordImpression(id: AdId) returns (r: Outcome)
      modifies this`ads
      ensures (View(), r) == Step(old(View()), CountsImpression(id))
    {
      if id !in ads {
        return Failed(AdNotFound);
      }
      ads := ads[id := ads[id].(impressions := ads[id].impressions + 1)];
      r := Done;
    }

    method RecordClick(id: AdId) returns (r: Outcome)
      modifies this`ads
      ensures (View(), r) == Step(old(View()), CountsClick(id))
    {
      if id !in ads {
        return Failed(AdNotFound);
      }
      ads := ads[id := ads[id].(clicks := ads[id].clicks + 1)];
      r := Done;
    }

    method GetDashboardAdvertisements(position: Option<Position>, found: seq<AdId>) returns (r: Outcome)
      requires Query(ads, position, now, found)
      modifies this`cache
      ensures (View(), r) == Step(old(View()), Reads(position, found))
    {
      if position in cache && now < cache[position].expiresAt {
        return Listed(true, cache[position].list);
      }
      var advertisements := [];
      for k := 0 to |found|
        invariant |advertisements| == k && forall l :: 0 <= l < k ==> advertisements[l] == (found[l], ads[found[l]])
      {
        advertisements := advertisements + [(found[k], ads[found[k]])];
      }
      assert advertisements == ListOf(ads, found);
      cache := cache[position := CachedList(advertisements, now + CACHE_TTL)];
      r := Listed(false, advertisements);
    }
  }

  // ----- the cache agrees with the advertisements -----

  /** What a reader sees apart from the counters. */
  function Shown(ad: Ad): Ad {
    ad.(impressions := 0, clicks := 0)
  }

  function IdsOf(list: seq<(AdId, Ad)>): (ids: seq<AdId>)
    ensures |ids| == |list| && forall k :: 0 <= k < |ids| ==> ids[k] == list[k].0
  {
    seq(|list|, k requires 0 <= k < |list| => list[k].0)
  }

  /** The list is, counters aside, what a query of these advertisements returns at time t. */
  ghost predicate IsListing(list: seq<(AdId, Ad)>, ads: map<AdId, Ad>, position: Option<Position>, t: int) {
    && Query(ads, position, t, IdsOf(list))
    && forall k :: 0 <= k < |list| ==> list[k].0 in ads && Shown(list[k].1) == Shown(ads[list[k].0])
  }

  /** Every cached list is what a query would have returned when it was stored, had the advertisements been these. */
  ghost predicate CacheGood(s: State) {
    forall p :: p in s.cache ==>
      s.cache[p].expiresAt - CACHE_TTL <= s.now && IsListing(s.cache[p].list, s.ads, p, s.cache[p].expiresAt - CACHE_TTL)
  }

  predicate SameButCounters(a: map<AdId, Ad>, b: map<AdId, Ad>) {
    a.Keys == b.Keys && forall i :: i in a ==> Shown(a[i]) == Shown(b[i])
  }

  lemma NewListing(ads: map<AdId, Ad>, position: Option<Position>, t: int, found: seq<AdId>)
    requires Query(ads, position, t, found)
    ensures forall i :: i in found ==> i in ads
    ensures IsListing(ListOf(ads, found), ads, position, t)
  {
  }

  lemma CountingKeepsCache(s: State, t: State)
    requires CacheGood(s) && t.cache == s.cache && t.now >= s.now && SameButCounters(s.ads, t.ads)
    ensures CacheGood(t)
  {
  }

  lemma EveryKeyIsCleared(p: Option<Position>)
    ensures p in CacheKeys()
  {
    if p.Some? {
      match p.value
      case DashboardTop =>
      case DashboardMiddle =>
      case DashboardSidebar =>
    }
  }

  /** An operation that changes anything a reader sees leaves nothing in the cache. */
  lemma ChangesInvalidate(s: State, e: Event)
    requires Fits(s, e) && !e.Reads?
    ensures Step(s, e).0.cache == map[] || (Step(s, e).0.cache == s.cache && SameButCounters(s.ads, Step(s, e).0.ads))
  {
    forall p: Option<Position> ensures p in CacheKeys() {
      EveryKeyIsCleared(p);
    }
  }

  lemma ReadKeepsCache(s: State, position: Option<Position>, found: seq<AdId>)
    requires CacheGood(s) && Query(s.ads, position, s.now, found)
    ensures CacheGood(Dashboard(s, position, found).0)
  {
    NewListing(s.ads, position, s.now, found);
  }

  lemma StepKeepsCache(s: State, e: Event)
    requires CacheGood(s) && Fits(s, e)
    ensures CacheGood(Step(s, e).0)
  {
    if e.Reads? {
      ReadKeepsCache(s, e.position, e.found);
    } else {
      ChangesInvalidate(s, e);
      if Step(s, e).0.cache != map[] {
        CountingKeepsCache(s, Step(s, e).0);
      }
    }
  }

  // ----- runs -----

  ghost predicate IsRun(states: seq<State>, events: seq<Event>) {
    && |states| == |events| + 1
    && forall k :: 0 <= k < |events| ==> Fits(states[k], events[k]) && states[k + 1] == Step(states[k], events[k]).0
  }

  lemma {:induction false} CacheGoodOnRuns(states: seq<State>, events: seq<Event>)
    requires IsRun(states, events) && CacheGood(states[0])
    ensures CacheGood(states[|events|])
  {
    if |events| > 0 {
      var n := |events| - 1;
      CacheGoodOnRuns(states[..n + 1], events[..n]);
      StepKeepsCache(states[n], events[n]);
    }
  }

  /**
   Cache agreement: whatever admins, readers and counters have done before, a dashboard read returns what a query
   of the advertisements as they are now, counters aside, would have returned at some instant of the last 300 s.
   */
  lemma ReadsAgree(states: seq<State>, events: seq<Event>, position: Option<Position>, found: seq<AdId>) returns (t: int)
    requires IsRun(states, events) && CacheGood(states[0]) && Fits(states[|events|], Reads(position, found))
    ensures var s := states[|events|];
            s.now - CACHE_TTL < t <= s.now && IsListing(Step(s, Reads(position, found)).1.list, s.ads, position, t)
  {
    var s := states[|events|];
    CacheGoodOnRuns(states, events);
    NewListing(s.ads, position, s.now, found);
    t := if Served(s, position) then s.cache[position].expiresAt - CACHE_TTL else s.now;
  }

  /** Nothing but an admin's change to it moves an advertisement out of the scheduled status: its start date never does. */
  predicate LeavesStatus(e: Event, id: AdId) {
    !(e.Updates? && e.id == id) && !(e.SetsStatus? && e.id == id) && !(e.Schedules? && e.id == id)
  }

  lemma StaysScheduled(s: State, e: Event, id: AdId)
    requires Fits(s, e) && id in s.ads && id < s.nextId && s.ads[id].status.Scheduled? && LeavesStatus(e, id)
    ensures var t := Step(s, e).0; s.nextId <= t.nextId && (id in t.ads ==> t.ads[id].status.Scheduled?)
  {
    if e.Reorders? {
      ReorderKeepsStatus(s.ads, e.items, id);
    }
  }

  lemma {:induction false} ReorderKeepsStatus(ads: map<AdId, Ad>, items: seq<(AdId, int)>, id: AdId)
    ensures Reordered(ads, items).Keys == ads.Keys
    ensures id in ads ==> Reordered(ads, items)[id].status == ads[id].status
  {
    if |items| > 0 {
      ReorderKeepsStatus(ads, items[..|items| - 1], id);
    }
  }

  /** So an advertisement scheduled for later is on no list, however long one waits, until an admin changes it. */
  lemma {:induction false} ScheduledIsNeverListed(states: seq<State>, events: seq<Event>, id: AdId, position: Option<Position>,
                                                  found: seq<AdId>)
    requires IsRun(states, events) && CacheGood(states[0])
    requires id in states[0].ads && id < states[0].nextId && states[0].ads[id].status.Scheduled?
    requires forall k :: 0 <= k < |events| ==> LeavesStatus(events[k], id)
    requires Fits(states[|events|], Reads(position, found))
    ensures forall k :: 0 <= k < |Step(states[|events|], Reads(position, found)).1.list| ==>
              Step(states[|events|], Reads(position, found)).1.list[k].0 != id
  {
    var s := states[|events|];
    ScheduledOnRuns(states, events, id);
    var t := ReadsAgree(states, events, position, found);
    var list := Step(s, Reads(position, found)).1.list;
    forall k | 0 <= k < |list| ensures list[k].0 != id {
      assert IdsOf(list)[k] in IdsOf(list);
    }
  }

  lemma {:induction false} ScheduledOnRuns(states: seq<State>, events: seq<Event>, id: AdId)
    requires IsRun(states, events)
    requires id < states[0].nextId && (id in states[0].ads ==> states[0].ads[id].status.Scheduled?)
    requires forall k :: 0 <= k < |events| ==> LeavesStatus(events[k], id)
    ensures id < states[|events|].nextId
    ensures id in states[|events|].ads ==> states[|events|].ads[id].status.Scheduled?
  {
    if |events| > 0 {
      var n := |events| - 1;
      ScheduledOnRuns(states[..n + 1], events[..n], id);
      if id in states[n].ads {
        StaysScheduled(states[n], events[n], id);
      } else {
        StaysAway(states[n], events[n], id);
      }
    }
  }

  lemma StaysAway(s: State, e: Event, id: AdId)
    requires Fits(s, e) && id !in s.ads && id < s.nextId
    ensures id !in Step(s, e).0.ads && id < Step(s, e).0.nextId
  {
    if e.Reorders? {
      ReorderKeepsStatus(s.ads, e.items, id);
    }
  }
}

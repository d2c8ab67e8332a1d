/** The fan endpoints: the paged list in four orders, one profile, creation, profile update,
    activity, per-fan statistics and the points leaderboard. No reply carries an email: every
    fan shown is a `Doc<Profile>`, which has no email field. */
module FanRoutes {
  import opened Documents
  import opened Http
  import opened Listing
  import opened FanModel
  import opened Store

  const FanNotFound := "Fan not found"
  const ListFailed := "Error fetching fans"
  const UsernameInUse := "Username already taken"
  const EmailInUse := "Email already registered"
  const CreateFailed := "Error creating fan profile"
  const StatsFailed := "Error fetching fan stats"

  /** One day in the time unit of the store (milliseconds). */
  const DayLength: nat := 1000 * 60 * 60 * 24

  const DefaultPage: int := 1
  const DefaultLimit: int := 20
  const DefaultLeaderboardLimit: int := 50

  // ---------------------------------------------------------------- sort modes

  datatype SortMode = ByPoints | ByLevel | Oldest | Recent

  /** The `switch` on the `sort` query parameter; a missing parameter means 'recent'. */
  function ModeOf(sort: Option<string>): (m: SortMode)
    ensures sort == Some("points") <==> m == ByPoints
    ensures sort == Some("level") <==> m == ByLevel
    ensures sort == Some("oldest") <==> m == Oldest
  {
    if sort == Some("points") then ByPoints
    else if sort == Some("level") then ByLevel
    else if sort == Some("oldest") then Oldest
    else Recent
  }

  /** A field sorted in descending order: present values largest first, missing values last. */
  function Desc(x: Option<int>): Key {
    if x.Some? then [0, -x.value] else [1, 0]
  }

  /** A field sorted in ascending order: missing values first, then present values smallest first. */
  function Asc(x: Option<int>): Key {
    if x.Some? then [1, x.value] else [0, 0]
  }

  function OptInt(t: Option<Time>): Option<int> {
    if t.Some? then Some(t.value as int) else None
  }

  /** The sort document of each mode, as a key. */
  function ModeKey(m: SortMode): Doc<Fan> -> Key {
    match m
    case ByPoints => (f: Doc<Fan>) => [-(f.body.profile.points as int)] + Desc(f.body.profile.level)
    case ByLevel => (f: Doc<Fan>) => Desc(f.body.profile.level) + [-(f.body.profile.points as int)]
    case Oldest => (f: Doc<Fan>) => Asc(OptInt(f.body.profile.joinedAt))
    case Recent => (f: Doc<Fan>) => Desc(OptInt(f.body.profile.lastActive))
  }

  /** a may stand before b in a descending field: b is missing, or both are present and a's is not smaller. */
  predicate DescBefore(a: Option<int>, b: Option<int>) {
    b.None? || (a.Some? && a.value >= b.value)
  }

  /** a may stand before b in an ascending field: a is missing, or both are present and a's is not larger. */
  predicate AscBefore(a: Option<int>, b: Option<int>) {
    a.None? || (b.Some? && a.value <= b.value)
  }

  predicate SameValue(a: Option<int>, b: Option<int>) {
    a == b
  }

  /** The order each mode promises, stated on the profile fields. */
  predicate Before(m: SortMode, a: Profile, b: Profile) {
    match m
    case ByPoints => a.points > b.points || (a.points == b.points && DescBefore(a.level, b.level))
    case ByLevel => (DescBefore(a.level, b.level) && !DescBefore(b.level, a.level))
                    || (SameValue(a.level, b.level) && a.points >= b.points)
    case Oldest => AscBefore(OptInt(a.joinedAt), OptInt(b.joinedAt))
    case Recent => DescBefore(OptInt(a.lastActive), OptInt(b.lastActive))
  }

  lemma DescOrder(a: Option<int>, b: Option<int>)
    ensures KeyLe(Desc(a), Desc(b)) <==> DescBefore(a, b)
    ensures Desc(a) == Desc(b) <==> a == b
  {
    KeyLeTwo(Desc(a)[0], Desc(a)[1], Desc(b)[0], Desc(b)[1]);
  }

  lemma AscOrder(a: Option<int>, b: Option<int>)
    ensures KeyLe(Asc(a), Asc(b)) <==> AscBefore(a, b)
  {
    KeyLeTwo(Asc(a)[0], Asc(a)[1], Asc(b)[0], Asc(b)[1]);
  }

  /** The key of each mode orders fans exactly as the mode promises. */
  lemma ModeKeyOrder(m: SortMode, a: Doc<Fan>, b: Doc<Fan>)
    ensures KeyLe(ModeKey(m)(a), ModeKey(m)(b)) <==> Before(m, a.body.profile, b.body.profile)
  {
    var p, q := a.body.profile, b.body.profile;
    match m
    case ByPoints =>
      DescOrder(p.level, q.level);
      var da, db := Desc(p.level), Desc(q.level);
      KeyLeThree(-(p.points as int), da[0], da[1], -(q.points as int), db[0], db[1]);
      assert ModeKey(m)(a) == [-(p.points as int), da[0], da[1]];
      assert ModeKey(m)(b) == [-(q.points as int), db[0], db[1]];
    case ByLevel =>
      DescOrder(p.level, q.level);
      DescOrder(q.level, p.level);
      var da, db := Desc(p.level), Desc(q.level);
      assert ModeKey(m)(a) == [da[0], da[1], -(p.points as int)];
      assert ModeKey(m)(b) == [db[0], db[1], -(q.points as int)];
      KeyLeThree(da[0], da[1], -(p.points as int), db[0], db[1], -(q.points as int));
      KeyLeTwo(da[1], -(p.points as int), db[1], -(q.points as int));
      KeyLeTwo(da[0], da[1], db[0], db[1]);
    case Oldest =>
      AscOrder(OptInt(p.joinedAt), OptInt(q.joinedAt));
    case Recent =>
      DescOrder(OptInt(p.lastActive), OptInt(q.lastActive));
  }

  // ---------------------------------------------------------------- the list

  datatype ListQuery = ListQuery(page: Option<int>, limit: Option<int>, sort: Option<string>)

  datatype FanPage = FanPage(data: seq<Doc<Profile>>, page: int, limit: int, total: nat, pages: Option<int>)

  /** Any two fans of a window over the mode's sorted order come in the mode's order. */
  lemma WindowBefore(fans: seq<Doc<Fan>>, m: SortMode, skip: nat, limit: int, w: seq<Doc<Fan>>)
    requires w == Window(SortBy(fans, ModeKey(m)), skip, limit)
    ensures forall i, j :: 0 <= i < j < |w| ==> Before(m, w[i].body.profile, w[j].body.profile)
  {
    forall i, j | 0 <= i < j < |w| ensures Before(m, w[i].body.profile, w[j].body.profile) {
      WindowInOrder(fans, ModeKey(m), skip, limit, i, j);
      ModeKeyOrder(m, w[i], w[j]);
    }
  }

  /** The fans of the window from position skip over the fans sorted by the mode, without emails. */
  function FansShown(fans: seq<Doc<Fan>>, m: SortMode, skip: nat, limit: int): (r: seq<Doc<Profile>>)
    ensures |r| == |Window(SortBy(fans, ModeKey(m)), skip, limit)|
    ensures forall i :: 0 <= i < |r| ==> r[i] == Public(Window(SortBy(fans, ModeKey(m)), skip, limit)[i])
    ensures forall i :: 0 <= i < |r| ==> exists k :: 0 <= k < |fans| && r[i] == Public(fans[k])
    ensures forall i, j :: 0 <= i < j < |r| ==> Before(m, r[i].body, r[j].body)
  {
    var window := Window(SortBy(fans, ModeKey(m)), skip, limit);
    WindowDrawsFrom(fans, ModeKey(m), skip, limit, window);
    WindowBefore(fans, m, skip, limit, window);
    var data := seq(|window|, i requires 0 <= i < |window| => Public(window[i]));
    forall i | 0 <= i < |data| ensures exists k :: 0 <= k < |fans| && data[i] == Public(fans[k]) {
      assert window[i] in fans;
    }
    data
  }

  /** GET /api/fans: the fans in the requested order, without emails, from position (page-1)*limit,
      at most limit of them; a negative skip is refused by the store and becomes a 500. */
  function ListFans(fans: seq<Doc<Fan>>, q: ListQuery): (r: Response<FanPage>)
    ensures var page, limit := q.page.GetOr(DefaultPage), q.limit.GetOr(DefaultLimit);
      && (r.Fail? <==> (page - 1) * limit < 0)
      && (r.Fail? ==> r == Fail(500, ListFailed))
      && (r.Ok? ==>
        && r.status == 200
        && r.data.page == page && r.data.limit == limit
        && r.data.total == |fans| && r.data.pages == PageCount(|fans|, limit)
        && |r.data.data| == |Window(SortBy(fans, ModeKey(ModeOf(q.sort))), (page - 1) * limit, limit)|
        && (forall i :: 0 <= i < |r.data.data| ==>
              r.data.data[i] == Public(Window(SortBy(fans, ModeKey(ModeOf(q.sort))), (page - 1) * limit, limit)[i]))
        && |r.data.data| <= |fans|
        && (LimitCap(limit).Some? ==> |r.data.data| <= LimitCap(limit).value)
        && (forall i :: 0 <= i < |r.data.data| ==> exists k :: 0 <= k < |fans| && r.data.data[i] == Public(fans[k]))
        && (forall i, j :: 0 <= i < j < |r.data.data| ==>
              Before(ModeOf(q.sort), r.data.data[i].body, r.data.data[j].body)))
  {
    var page, limit := q.page.GetOr(DefaultPage), q.limit.GetOr(DefaultLimit);
    var skip := (page - 1) * limit;
    if skip < 0 then Fail(500, ListFailed)
    else Ok(200, FanPage(FansShown(fans, ModeOf(q.sort), skip, limit), page, limit, |fans|, PageCount(|fans|, limit)))
  }

  /** A full page in the middle of the list is exactly the fans at positions (page-1)*limit up to
      page*limit of the sorted collection. */
  lemma ListFansPageIsSlice(fans: seq<Doc<Fan>>, q: ListQuery, page: nat, limit: nat, skip: nat)
    requires q.page == Some(page) && q.limit == Some(limit) && page >= 1 && limit >= 1
    requires skip == (page - 1) * limit && skip + limit <= |fans|
    ensures ListFans(fans, q).Ok? && |ListFans(fans, q).data.data| == limit
    ensures forall i :: 0 <= i < limit ==>
      ListFans(fans, q).data.data[i] == Public(SortBy(fans, ModeKey(ModeOf(q.sort)))[skip + i])
  {
    var sorted := SortBy(fans, ModeKey(ModeOf(q.sort)));
    WindowIsSlice(sorted, page, limit);
  }

  /** With no page and no limit given, a collection of at most 20 fans is listed in full. */
  lemma ListFansDefaultShowsAll(fans: seq<Doc<Fan>>, q: ListQuery)
    requires q.page.None? && q.limit.None? && |fans| <= DefaultLimit
    ensures ListFans(fans, q).Ok? && |ListFans(fans, q).data.data| == |fans|
  {
    assert LimitCap(DefaultLimit) == Some(DefaultLimit);
  }

  // ---------------------------------------------------------------- one fan

  /** GET /api/fans/:id: the profile without its email, or 404. */
  function GetFan(fans: seq<Doc<Fan>>, id: Id): (r: Response<Doc<Profile>>)
    ensures r.Fail? <==> IndexOf(fans, id).None?
    ensures r.Fail? ==> r == Fail(404, FanNotFound)
    ensures r.Ok? ==>
      && r.status == 200 && r.data.id == id
      && r.data.body == fans[IndexOf(fans, id).value].body.profile
  {
    var k := IndexOf(fans, id);
    if k.None? then Fail(404, FanNotFound) else Ok(200, Public(fans[k.value]))
  }

  // ---------------------------------------------------------------- creation

  datatype NewFanRequest = NewFanRequest(username: string, email: Option<string>, bio: Option<string>,
                                         location: Option<string>, socialMedia: Option<map<string, string>>)

  /** `if (email)`: only a non-empty email is looked up before the insert. */
  predicate EmailChecked(email: Option<string>) {
    email.Some? && email.value != ""
  }

  function Requested(req: NewFanRequest, now: Time): Option<Fan> {
    NewFan(req.username, req.email, req.bio, req.location, req.socialMedia.GetOr(map[]), now)
  }

  /** Adding a fan under the next id whose username and email are free keeps the store consistent. */
  lemma AddFanKeepsConsistent(outfits: seq<Doc<OutfitModel.Outfit>>, votes: seq<Doc<VoteModel.Vote>>,
                              fans: seq<Doc<Fan>>, questions: seq<Doc<QuestionModel.Question>>,
                              wallpapers: seq<Doc<WallpaperModel.Wallpaper>>, next: Id, f: Fan)
    requires Consistent(outfits, votes, fans, questions, wallpapers, next)
    requires Valid(f) && !UsernameTaken(fans, f.profile.username)
    requires f.email.None? || !EmailTaken(fans, f.email.value)
    requires f.profile.points == 0
    ensures Consistent(outfits, votes, fans + [Doc(next, f)], questions, wallpapers, next + 1)
  {
    CollectionValidAppend(fans, Doc(next, f));
    AllocatedAppend(fans, next, f);
    ConsistentWithFans(outfits, votes, fans, questions, wallpapers, next, fans + [Doc(next, f)], next + 1);
  }

  /** POST /api/fans: 400 for a taken username (checked first) or a taken non-empty email; 500 when
      the schema or the email index refuses the document; otherwise the new fan, shown without email. */
  method CreateFan(db: Db, req: NewFanRequest, now: Time) returns (r: Response<Doc<Profile>>)
    requires db.Valid()
    modifies db
    ensures db.Valid()
    ensures old(UsernameTaken(db.fans, req.username)) ==> r == Fail(400, UsernameInUse) && unchanged(db)
    ensures (!old(UsernameTaken(db.fans, req.username)) && EmailChecked(req.email)
             && old(EmailTaken(db.fans, req.email.value))) ==> r == Fail(400, EmailInUse) && unchanged(db)
    ensures r.Ok? <==> old(!UsernameTaken(db.fans, req.username)
                          && (req.email.None? || !EmailTaken(db.fans, req.email.value))
                          && Requested(req, now).Some?)
    ensures r.Fail? && r.status != 400 ==> r == Fail(500, CreateFailed) && unchanged(db)
    ensures r.Fail? ==> unchanged(db)
    ensures r.Ok? ==>
      var d := Doc(old(db.nextId), Requested(req, now).value);
      && r == Ok(201, Public(d))
      && db.fans == old(db.fans) + [d] && db.nextId == old(db.nextId) + 1
      && db.outfits == old(db.outfits) && db.votes == old(db.votes)
      && db.questions == old(db.questions) && db.wallpapers == old(db.wallpapers)
  {
    if UsernameTaken(db.fans, req.username) {
      return Fail(400, UsernameInUse);
    }
    if EmailChecked(req.email) && EmailTaken(db.fans, req.email.value) {
      return Fail(400, EmailInUse);
    }
    var made := Requested(req, now);
    if made.None? {
      // the schema's validation refuses an empty username
      return Fail(500, CreateFailed);
    }
    if req.email.Some? && EmailTaken(db.fans, req.email.value) {
      // an empty email is not looked up, but the unique index refuses a second one
      return Fail(500, CreateFailed);
    }
    AddFanKeepsConsistent(db.outfits, db.votes, db.fans, db.questions, db.wallpapers, db.nextId, made.value);
    var d := Doc(db.nextId, made.value);
    db.fans, db.nextId := db.fans + [d], db.nextId + 1;
    assert Consistent(db.outfits, db.votes, db.fans, db.questions, db.wallpapers, db.nextId);
    r := Ok(201, Public(d));
  }

  // ---------------------------------------------------------------- update and activity

  /** The body of PUT /api/fans/:id: for bio and location, `None` is a field left undefined and
      `Some(None)` a field set to null. */
  datatype ProfileUpdate = ProfileUpdate(bio: Option<Option<string>>, location: Option<Option<string>>,
                                         socialMedia: Option<map<string, string>>,
                                         preferences: Option<map<string, string>>)

  /** The assignments of PUT /api/fans/:id followed by the save: defined fields replace, the two objects
      are merged with the new keys winning, and the activity and update times move to now. */
  function ApplyUpdate(p: Profile, u: ProfileUpdate, now: Time): (r: Profile)
    ensures r.bio == (if u.bio.Some? then u.bio.value else p.bio)
    ensures r.location == (if u.location.Some? then u.location.value else p.location)
    ensures u.socialMedia.None? ==> r.socialMedia == p.socialMedia
    ensures u.socialMedia.Some? ==> r.socialMedia.Keys == p.socialMedia.Keys + u.socialMedia.value.Keys
    ensures u.socialMedia.Some? ==> forall k :: k in r.socialMedia ==>
      r.socialMedia[k] == (if k in u.socialMedia.value then u.socialMedia.value[k] else p.socialMedia[k])
    ensures u.preferences.None? ==> r.preferences == p.preferences
    ensures u.preferences.Some? ==>
      && r.preferences.Some?
      && r.preferences.value.Keys == p.preferences.GetOr(map[]).Keys + u.preferences.value.Keys
    ensures u.preferences.Some? ==> forall k :: k in r.preferences.value ==>
      r.preferences.value[k] == (if k in u.preferences.value then u.preferences.value[k] else p.preferences.value[k])
    ensures r.lastActive == Some(now) && r.updatedAt == now
    ensures r.(bio := p.bio, location := p.location, socialMedia := p.socialMedia, preferences := p.preferences,
               lastActive := p.lastActive, updatedAt := p.updatedAt) == p
  {
    p.(bio := if u.bio.Some? then u.bio.value else p.bio,
       location := if u.location.Some? then u.location.value else p.location,
       socialMedia := if u.socialMedia.Some? then p.socialMedia + u.socialMedia.value else p.socialMedia,
       preferences := if u.preferences.Some? then Some(p.preferences.GetOr(map[]) + u.preferences.value) else p.preferences,
       lastActive := Some(now),
       updatedAt := now)
  }

  /** An update that sets nothing only refreshes the activity and update times. */
  lemma EmptyUpdateTouchesOnly(p: Profile, now: Time)
    ensures ApplyUpdate(p, ProfileUpdate(None, None, None, None), now) == p.(lastActive := Some(now), updatedAt := now)
  {
  }

  /** Merging the same objects twice gives what merging them once gives. */
  lemma UpdateIdempotent(p: Profile, u: ProfileUpdate, now: Time)
    ensures ApplyUpdate(ApplyUpdate(p, u, now), u, now) == ApplyUpdate(p, u, now)
  {
    var once := ApplyUpdate(p, u, now);
    var twice := ApplyUpdate(once, u, now);
    if u.socialMedia.Some? {
      assert twice.socialMedia == once.socialMedia;
    }
    if u.preferences.Some? {
      var merged := p.preferences.GetOr(map[]) + u.preferences.value;
      assert once.preferences == Some(merged);
      assert merged + u.preferences.value == merged;
    }
  }

  /** The fan collection with the profile at position k replaced. */
  function WithProfile(fans: seq<Doc<Fan>>, k: nat, p: Profile): (r: seq<Doc<Fan>>)
    requires k < |fans|
    ensures |r| == |fans| && r[k].id == fans[k].id && r[k].body.email == fans[k].body.email
    ensures r[k].body.profile == p
    ensures forall i :: 0 <= i < |fans| && i != k ==> r[i] == fans[i]
  {
    fans[k := Doc(fans[k].id, Fan(fans[k].body.email, p))]
  }

  /** Replacing a profile without touching its username or points keeps the store consistent. */
  lemma ReplaceProfileKeepsConsistent(outfits: seq<Doc<OutfitModel.Outfit>>, votes: seq<Doc<VoteModel.Vote>>,
                                      fans: seq<Doc<Fan>>, questions: seq<Doc<QuestionModel.Question>>,
                                      wallpapers: seq<Doc<WallpaperModel.Wallpaper>>, next: Id, k: nat, p: Profile)
    requires Consistent(outfits, votes, fans, questions, wallpapers, next) && k < |fans|
    requires p.username == fans[k].body.profile.username
    requires p.points == fans[k].body.profile.points && p.isTopFan == fans[k].body.profile.isTopFan
    ensures Consistent(outfits, votes, WithProfile(fans, k, p), questions, wallpapers, next)
  {
    var f := Doc(fans[k].id, Fan(fans[k].body.email, p));
    CollectionValidReplace(fans, k, f);
    AllocatedReplace(fans, next, k, f.body);
    ConsistentWithFans(outfits, votes, fans, questions, wallpapers, next, WithProfile(fans, k, p), next);
  }

  /** PUT /api/fans/:id: 404 for an unknown id; otherwise only that fan's profile changes, as ApplyUpdate says. */
  method UpdateFan(db: Db, id: Id, u: ProfileUpdate, now: Time) returns (r: Response<Doc<Profile>>)
    requires db.Valid()
    modifies db
    ensures db.Valid()
    ensures r.Fail? <==> old(IndexOf(db.fans, id)).None?
    ensures r.Fail? ==> r == Fail(404, FanNotFound) && unchanged(db)
    ensures r.Ok? ==>
      var k := old(IndexOf(db.fans, id)).value;
      var p := ApplyUpdate(old(db.fans)[k].body.profile, u, now);
      && db.fans == WithProfile(old(db.fans), k, p)
      && r == Ok(200, Doc(id, p))
      && db.outfits == old(db.outfits) && db.votes == old(db.votes) && db.questions == old(db.questions)
      && db.wallpapers == old(db.wallpapers) && db.nextId == old(db.nextId)
  {
    var k := IndexOf(db.fans, id);
    if k.None? {
      return Fail(404, FanNotFound);
    }
    var p := ApplyUpdate(db.fans[k.value].body.profile, u, now);
    ReplaceProfileKeepsConsistent(db.outfits, db.votes, db.fans, db.questions, db.wallpapers, db.nextId, k.value, p);
    db.fans := WithProfile(db.fans, k.value, p);
    assert Consistent(db.outfits, db.votes, db.fans, db.questions, db.wallpapers, db.nextId);
    r := Ok(200, Public(db.fans[k.value]));
  }

  /** POST /api/fans/:id/activity: 404 for an unknown id; otherwise that fan's activity and update
      times become now and nothing else changes. */
  method RecordActivity(db: Db, id: Id, now: Time) returns (r: Response<()>)
    requires db.Valid()
    modifies db
    ensures db.Valid()
    ensures r.Fail? <==> old(IndexOf(db.fans, id)).None?
    ensures r.Fail? ==> r == Fail(404, FanNotFound) && unchanged(db)
    ensures r.Ok? ==>
      var k := old(IndexOf(db.fans, id)).value;
      && db.fans == WithProfile(old(db.fans), k, old(db.fans)[k].body.profile.(lastActive := Some(now), updatedAt := now))
      && r == Ok(200, ())
      && db.outfits == old(db.outfits) && db.votes == old(db.votes) && db.questions == old(db.questions)
      && db.wallpapers == old(db.wallpapers) && db.nextId == old(db.nextId)
  {
    var k := IndexOf(db.fans, id);
    if k.None? {
      return Fail(404, FanNotFound);
    }
    var p := db.fans[k.value].body.profile.(lastActive := Some(now), updatedAt := now);
    ReplaceProfileKeepsConsistent(db.outfits, db.votes, db.fans, db.questions, db.wallpapers, db.nextId, k.value, p);
    db.fans := WithProfile(db.fans, k.value, p);
    assert Consistent(db.outfits, db.votes, db.fans, db.questions, db.wallpapers, db.nextId);
    r := Ok(200, ());
  }

  // ---------------------------------------------------------------- statistics and leaderboard

  datatype FanStats = FanStats(level: Option<int>, points: nat, badges: nat, stats: Option<map<string, int>>,
                               joinedDaysAgo: Option<int>, isVip: Option<bool>)

  /** `Math.floor((now - joinedAt) / day)`, and null (NaN) when the join date is missing. */
  function DaysSince(joinedAt: Option<Time>, now: Time): (r: Option<int>)
    ensures r.None? <==> joinedAt.None?
    ensures r.Some? ==> r.value * DayLength <= now - joinedAt.value < (r.value + 1) * DayLength
  {
    if joinedAt.None? then None else Some((now - joinedAt.value) / DayLength)
  }

  /** GET /api/fans/:id/stats: 404 for an unknown id; a fan without a badge list makes `badges.length`
      throw, which the handler answers with 500; otherwise the number of badges and the stored figures. */
  function GetFanStats(fans: seq<Doc<Fan>>, id: Id, now: Time): (r: Response<FanStats>)
    ensures IndexOf(fans, id).None? ==> r == Fail(404, FanNotFound)
    ensures IndexOf(fans, id).Some? ==> var p := fans[IndexOf(fans, id).value].body.profile;
      && (p.badges.None? ==> r == Fail(500, StatsFailed))
      && (p.badges.Some? ==>
            && r.Ok? && r.status == 200 && r.data.badges == |p.badges.value|
            && r.data.level == p.level && r.data.points == p.points && r.data.stats == p.stats
            && r.data.isVip == p.isVip && r.data.joinedDaysAgo == DaysSince(p.joinedAt, now))
  {
    var k := IndexOf(fans, id);
    if k.None? then Fail(404, FanNotFound)
    else
      var p := fans[k.value].body.profile;
      if p.badges.None? then Fail(500, StatsFailed)
      else Ok(200, FanStats(p.level, p.points, |p.badges.value|, p.stats, DaysSince(p.joinedAt, now), p.isVip))
  }

  /** The fields the leaderboard selects. */
  datatype LeaderboardEntry = LeaderboardEntry(id: Id, username: string, avatar: Option<string>, points: nat,
                                               level: Option<int>, badges: Option<seq<Badge>>,
                                               stats: Option<map<string, int>>, isVip: Option<bool>)

  function Entry(f: Doc<Fan>): LeaderboardEntry {
    var p := f.body.profile;
    LeaderboardEntry(f.id, p.username, p.avatar, p.points, p.level, p.badges, p.stats, p.isVip)
  }

  /** GET /api/fans/leaderboard/points: the fans by points and then level, both descending, at most
      `limit` of them (50 when absent, no cap for 0). */
  function Leaderboard(fans: seq<Doc<Fan>>, limit: Option<int>): (r: seq<LeaderboardEntry>)
    ensures var cap := LimitCap(limit.GetOr(DefaultLeaderboardLimit));
      |r| == if cap.None? then |fans| else Min(|fans|, cap.value)
    ensures forall i :: 0 <= i < |r| ==> exists k :: 0 <= k < |fans| && r[i] == Entry(fans[k])
    ensures forall i, j :: 0 <= i < j < |r| ==>
      r[i].points > r[j].points || (r[i].points == r[j].points && DescBefore(r[i].level, r[j].level))
  {
    var top := Window(SortBy(fans, ModeKey(ByPoints)), 0, limit.GetOr(DefaultLeaderboardLimit));
    WindowDrawsFrom(fans, ModeKey(ByPoints), 0, limit.GetOr(DefaultLeaderboardLimit), top);
    WindowBefore(fans, ByPoints, 0, limit.GetOr(DefaultLeaderboardLimit), top);
    var r := seq(|top|, i requires 0 <= i < |top| => Entry(top[i]));
    forall i | 0 <= i < |r| ensures exists k :: 0 <= k < |fans| && r[i] == Entry(fans[k]) {
      assert top[i] in fans;
    }
    r
  }

  /** The leaderboard is the head of the collection sorted by points. */
  lemma LeaderboardEntries(fans: seq<Doc<Fan>>, limit: Option<int>)
    ensures forall i :: 0 <= i < |Leaderboard(fans, limit)| ==>
      i < |fans| && Leaderboard(fans, limit)[i] == Entry(SortBy(fans, ModeKey(ByPoints))[i])
  {
    var top := Window(SortBy(fans, ModeKey(ByPoints)), 0, limit.GetOr(DefaultLeaderboardLimit));
    assert |Leaderboard(fans, limit)| == |top|;
    forall i | 0 <= i < |top| ensures Leaderboard(fans, limit)[i] == Entry(top[i]) {
    }
  }

  /** No fan left off the leaderboard has more points than any fan on it. */
  lemma LeaderboardIsTop(fans: seq<Doc<Fan>>, limit: Option<int>, k: nat)
    requires k < |fans|
    requires forall i :: 0 <= i < |Leaderboard(fans, limit)| ==> Leaderboard(fans, limit)[i].id != fans[k].id
    ensures forall i :: 0 <= i < |Leaderboard(fans, limit)| ==>
      Leaderboard(fans, limit)[i].points >= fans[k].body.profile.points
  {
    var sorted := SortBy(fans, ModeKey(ByPoints));
    var board := Leaderboard(fans, limit);
    SortByKeeps(fans, ModeKey(ByPoints), k);
    var j :| 0 <= j < |fans| && sorted[j] == fans[k];
    LeaderboardEntries(fans, limit);
    assert j >= |board|;
    forall i | 0 <= i < |board| ensures board[i].points >= fans[k].body.profile.points {
      SortedPair(fans, ModeKey(ByPoints), i, j);
      ModeKeyOrder(ByPoints, sorted[i], sorted[j]);
    }
  }
}

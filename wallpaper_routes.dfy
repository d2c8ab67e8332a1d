/** The wallpaper endpoints: the paged list in three orders, download counting, creation and the
    most downloaded wallpapers. */
module WallpaperRoutes {
  import opened Documents
  import opened Http
  import opened Listing
  import opened WallpaperModel
  import opened Store

  const ListFailed := "Error fetching wallpapers"
  const WallpaperNotFound := "Wallpaper not found"
  const CreateFailed := "Error creating wallpaper"

  /** The category every wallpaper is shown under. */
  const Category := "lifestyle"

  const DefaultPage: int := 1
  const DefaultLimit: int := 12
  const DefaultPopularLimit: int := 20

  datatype SortMode = Popular | Oldest | Newest

  /** The `switch` on the `sort` query parameter; a missing parameter means 'newest'. */
  function ModeOf(sort: Option<string>): (m: SortMode)
    ensures sort == Some("popular") <==> m == Popular
    ensures sort == Some("oldest") <==> m == Oldest
  {
    if sort == Some("popular") then Popular
    else if sort == Some("oldest") then Oldest
    else Newest
  }

  function ModeKey(m: SortMode): Doc<Wallpaper> -> Key {
    match m
    case Popular => (w: Doc<Wallpaper>) => [-(w.body.downloads as int)]
    case Oldest => (w: Doc<Wallpaper>) => [w.body.createdAt as int]
    case Newest => (w: Doc<Wallpaper>) => [-(w.body.createdAt as int)]
  }

  /** The order each mode promises, stated on the wallpaper fields. */
  predicate Before(m: SortMode, a: Wallpaper, b: Wallpaper) {
    match m
    case Popular => a.downloads >= b.downloads
    case Oldest => a.createdAt <= b.createdAt
    case Newest => a.createdAt >= b.createdAt
  }

  lemma ModeKeyOrder(m: SortMode, a: Doc<Wallpaper>, b: Doc<Wallpaper>)
    ensures KeyLe(ModeKey(m)(a), ModeKey(m)(b)) <==> Before(m, a.body, b.body)
  {
    match m
    case Popular => KeyLeOne(-(a.body.downloads as int), -(b.body.downloads as int));
    case Oldest => KeyLeOne(a.body.createdAt as int, b.body.createdAt as int);
    case Newest => KeyLeOne(-(a.body.createdAt as int), -(b.body.createdAt as int));
  }

  /** A wallpaper as the lists show it. */
  datatype Card = Card(id: Id, title: string, image: string, downloads: nat, category: string)

  function CardOf(w: Doc<Wallpaper>): Card {
    Card(w.id, w.body.title, w.body.imageUrl, w.body.downloads, Category)
  }

  /** Any two wallpapers of a window over the mode's sorted order come in the mode's order. */
  lemma WindowBefore(ws: seq<Doc<Wallpaper>>, m: SortMode, skip: nat, limit: int, w: seq<Doc<Wallpaper>>)
    requires w == Window(SortBy(ws, ModeKey(m)), skip, limit)
    ensures forall i, j :: 0 <= i < j < |w| ==> Before(m, w[i].body, w[j].body)
  {
    forall i, j | 0 <= i < j < |w| ensures Before(m, w[i].body, w[j].body) {
      WindowInOrder(ws, ModeKey(m), skip, limit, i, j);
      ModeKeyOrder(m, w[i], w[j]);
    }
  }

  /** The first `limit` wallpapers from position skip in the order of the mode, as cards. */
  function Cards(ws: seq<Doc<Wallpaper>>, m: SortMode, skip: nat, limit: int): (r: seq<Card>)
    ensures |r| <= |ws| && (LimitCap(limit).Some? ==> |r| <= LimitCap(limit).value)
    ensures skip >= |ws| ==> r == []
    ensures skip < |ws| && LimitCap(limit).None? ==> |r| == |ws| - skip
    ensures skip < |ws| && LimitCap(limit).Some? ==> |r| == Min(|ws| - skip, LimitCap(limit).value)
    ensures forall i :: 0 <= i < |r| ==> r[i].category == Category
    ensures forall i :: 0 <= i < |r| ==> exists k :: 0 <= k < |ws| && r[i] == CardOf(ws[k])
    ensures m == Popular ==> forall i, j :: 0 <= i < j < |r| ==> r[i].downloads >= r[j].downloads
  {
    var window := Window(SortBy(ws, ModeKey(m)), skip, limit);
    WindowDrawsFrom(ws, ModeKey(m), skip, limit, window);
    WindowBefore(ws, m, skip, limit, window);
    var r := seq(|window|, i requires 0 <= i < |window| => CardOf(window[i]));
    forall i | 0 <= i < |r| ensures exists k :: 0 <= k < |ws| && r[i] == CardOf(ws[k]) {
      assert window[i] in ws;
    }
    r
  }

  datatype WallpaperPage = WallpaperPage(data: seq<Card>, page: int, limit: int, total: nat, pages: Option<int>)

  /** GET /api/wallpapers: the wallpapers in the requested order from position (page-1)*limit, at most
      limit of them, all in the 'lifestyle' category; a negative skip becomes a 500. */
  function ListWallpapers(ws: seq<Doc<Wallpaper>>, page: Option<int>, limit: Option<int>, sort: Option<string>)
    : (r: Response<WallpaperPage>)
    ensures var page, limit := page.GetOr(DefaultPage), limit.GetOr(DefaultLimit);
      && (r.Fail? <==> (page - 1) * limit < 0)
      && (r.Fail? ==> r == Fail(500, ListFailed))
      && (r.Ok? ==>
        && r.status == 200
        && r.data.page == page && r.data.limit == limit
        && r.data.total == |ws| && r.data.pages == PageCount(|ws|, limit)
        && r.data.data == Cards(ws, ModeOf(sort), (page - 1) * limit, limit))
  {
    var page, limit := page.GetOr(DefaultPage), limit.GetOr(DefaultLimit);
    var skip := (page - 1) * limit;
    if skip < 0 then Fail(500, ListFailed)
    else Ok(200, WallpaperPage(Cards(ws, ModeOf(sort), skip, limit), page, limit, |ws|, PageCount(|ws|, limit)))
  }

  /** In every mode, consecutive cards of a page come in the order the mode promises. */
  lemma CardsInOrder(ws: seq<Doc<Wallpaper>>, m: SortMode, skip: nat, limit: int, i: nat, j: nat)
    requires i < j < |Cards(ws, m, skip, limit)|
    ensures var sorted := SortBy(ws, ModeKey(m));
      && skip + j < |sorted|
      && Cards(ws, m, skip, limit)[i] == CardOf(sorted[skip + i])
      && Cards(ws, m, skip, limit)[j] == CardOf(sorted[skip + j])
      && Before(m, sorted[skip + i].body, sorted[skip + j].body)
  {
    var sorted := SortBy(ws, ModeKey(m));
    var window := Window(sorted, skip, limit);
    assert Cards(ws, m, skip, limit)[i] == CardOf(window[i]) && Cards(ws, m, skip, limit)[j] == CardOf(window[j]);
    WindowPair(sorted, skip, limit, i, j);
    WindowBefore(ws, m, skip, limit, window);
  }

  /** Card i of a page is the card of the wallpaper at position skip + i in the mode's order. */
  lemma CardAt(ws: seq<Doc<Wallpaper>>, m: SortMode, skip: nat, limit: int, i: nat)
    requires i < |Cards(ws, m, skip, limit)|
    ensures skip + i < |ws| && skip + i < |SortBy(ws, ModeKey(m))|
    ensures Cards(ws, m, skip, limit)[i] == CardOf(SortBy(ws, ModeKey(m))[skip + i])
  {
    var window := Window(SortBy(ws, ModeKey(m)), skip, limit);
    assert Cards(ws, m, skip, limit)[i] == CardOf(window[i]);
  }

  /** GET /api/wallpapers/popular: at most `limit` wallpapers (20 when absent), most downloaded first. */
  function PopularWallpapers(ws: seq<Doc<Wallpaper>>, limit: Option<int>): (r: seq<Card>)
    ensures var cap := LimitCap(limit.GetOr(DefaultPopularLimit));
      |r| == if cap.None? then |ws| else Min(|ws|, cap.value)
    ensures forall i :: 0 <= i < |r| ==> exists k :: 0 <= k < |ws| && r[i] == CardOf(ws[k])
    ensures forall i, j :: 0 <= i < j < |r| ==> r[i].downloads >= r[j].downloads
    ensures forall i :: 0 <= i < |r| ==> i < |ws| && r[i] == CardOf(SortBy(ws, ModeKey(Popular))[i])
  {
    var r := Cards(ws, Popular, 0, limit.GetOr(DefaultPopularLimit));
    forall i | 0 <= i < |r| ensures i < |ws| && r[i] == CardOf(SortBy(ws, ModeKey(Popular))[i]) {
      CardAt(ws, Popular, 0, limit.GetOr(DefaultPopularLimit), i);
    }
    r
  }

  /** The first popular wallpaper has at least as many downloads as any stored wallpaper. */
  lemma PopularFirstIsMost(ws: seq<Doc<Wallpaper>>, limit: Option<int>, k: nat)
    requires k < |ws| && |PopularWallpapers(ws, limit)| > 0
    ensures PopularWallpapers(ws, limit)[0].downloads >= ws[k].body.downloads
  {
    var sorted := SortBy(ws, ModeKey(Popular));
    SortByKeeps(ws, ModeKey(Popular), k);
    var j :| 0 <= j < |sorted| && sorted[j] == ws[k];
    if j > 0 {
      SortedPair(ws, ModeKey(Popular), 0, j);
      ModeKeyOrder(Popular, sorted[0], sorted[j]);
    }
  }

  /** The popular list is the first page of the list sorted by 'popular' with the same limit. */
  lemma PopularIsFirstPage(ws: seq<Doc<Wallpaper>>, limit: int)
    ensures ListWallpapers(ws, Some(1), Some(limit), Some("popular")).Ok?
    ensures PopularWallpapers(ws, Some(limit)) == ListWallpapers(ws, Some(1), Some(limit), Some("popular")).data.data
  {
  }

  /** The reply of a download: the new count and the image to fetch. */
  datatype Downloaded = Downloaded(id: Id, downloads: nat, downloadUrl: string)

  /** `wallpaper.downloads += 1` and the save that refreshes updatedAt. */
  function Counted(w: Wallpaper, now: Time): (r: Wallpaper)
    ensures r.downloads == w.downloads + 1 && r.updatedAt == now
    ensures r.(downloads := w.downloads, updatedAt := w.updatedAt) == w
  {
    w.(downloads := w.downloads + 1, updatedAt := now)
  }

  /** POST /api/wallpapers/:id/download: 404 and no change for an unknown id; otherwise that wallpaper's
      counter goes up by exactly one, no other wallpaper changes, and the reply carries the new count. */
  method Download(db: Db, id: Id, now: Time) returns (r: Response<Downloaded>)
    requires db.Valid()
    modifies db
    ensures db.Valid()
    ensures r.Fail? <==> old(IndexOf(db.wallpapers, id)).None?
    ensures r.Fail? ==> r == Fail(404, WallpaperNotFound) && unchanged(db)
    ensures r.Ok? ==>
      var k := old(IndexOf(db.wallpapers, id)).value;
      && db.wallpapers == old(db.wallpapers)[k := Doc(id, Counted(old(db.wallpapers)[k].body, now))]
      && r == Ok(200, Downloaded(id, old(db.wallpapers)[k].body.downloads + 1, old(db.wallpapers)[k].body.imageUrl))
      && db.outfits == old(db.outfits) && db.votes == old(db.votes) && db.fans == old(db.fans)
      && db.questions == old(db.questions) && db.nextId == old(db.nextId)
  {
    var k := IndexOf(db.wallpapers, id);
    if k.None? {
      return Fail(404, WallpaperNotFound);
    }
    var w := db.wallpapers[k.value];
    var after := db.wallpapers[k.value := Doc(w.id, Counted(w.body, now))];
    AllocatedReplace(db.wallpapers, db.nextId, k.value, Counted(w.body, now));
    ConsistentWithWallpapers(db.outfits, db.votes, db.fans, db.questions, db.wallpapers, db.nextId, after, db.nextId);
    db.wallpapers := after;
    assert Consistent(db.outfits, db.votes, db.fans, db.questions, db.wallpapers, db.nextId);
    r := Ok(200, Downloaded(w.id, w.body.downloads + 1, w.body.imageUrl));
  }

  /** The total of all download counters. */
  function DownloadSum(ws: seq<Doc<Wallpaper>>): nat {
    if ws == [] then 0 else DownloadSum(ws[..|ws| - 1]) + ws[|ws| - 1].body.downloads
  }

  /** Counting one download raises the total of all counters by exactly one. */
  lemma {:induction false} DownloadSumAfterCount(ws: seq<Doc<Wallpaper>>, k: nat, now: Time)
    requires k < |ws|
    ensures DownloadSum(ws[k := Doc(ws[k].id, Counted(ws[k].body, now))]) == DownloadSum(ws) + 1
  {
    var after := ws[k := Doc(ws[k].id, Counted(ws[k].body, now))];
    if k < |ws| - 1 {
      assert after[..|after| - 1] == ws[..|ws| - 1][k := Doc(ws[k].id, Counted(ws[k].body, now))];
      DownloadSumAfterCount(ws[..|ws| - 1], k, now);
    } else {
      assert after[..|after| - 1] == ws[..|ws| - 1];
    }
  }

  /** POST /api/wallpapers: a new wallpaper with no downloads, or 500 when the schema rejects it. */
  method CreateWallpaper(db: Db, title: Option<string>, imageUrl: Option<string>, now: Time)
    returns (r: Response<Doc<Wallpaper>>)
    requires db.Valid()
    modifies db
    ensures db.Valid()
    ensures r.Fail? <==> NewWallpaper(title, imageUrl, now).None?
    ensures r.Fail? ==> r == Fail(500, CreateFailed) && unchanged(db)
    ensures r.Ok? ==>
      && r == Ok(201, Doc(old(db.nextId), NewWallpaper(title, imageUrl, now).value))
      && db.wallpapers == old(db.wallpapers) + [r.data] && db.nextId == old(db.nextId) + 1
      && db.outfits == old(db.outfits) && db.votes == old(db.votes)
      && db.fans == old(db.fans) && db.questions == old(db.questions)
  {
    var made := NewWallpaper(title, imageUrl, now);
    if made.None? {
      return Fail(500, CreateFailed);
    }
    var d := Doc(db.nextId, made.value);
    AllocatedAppend(db.wallpapers, db.nextId, made.value);
    ConsistentWithWallpapers(db.outfits, db.votes, db.fans, db.questions, db.wallpapers, db.nextId,
                             db.wallpapers + [d], db.nextId + 1);
    db.wallpapers, db.nextId := db.wallpapers + [d], db.nextId + 1;
    assert Consistent(db.outfits, db.votes, db.fans, db.questions, db.wallpapers, db.nextId);
    r := Ok(201, d);
  }
}

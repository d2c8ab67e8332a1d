/** The outfit endpoints: the ranked list, one outfit with its reactions, and creation. */
module OutfitRoutes {
  import opened Documents
  import opened Http
  import opened Listing
  import opened VoteModel
  import opened OutfitModel
  import opened FanModel
  import opened Store
  import StoreFacts

  const OutfitNotFound := "Outfit not found"
  const CreateFailed := "Error creating outfit"

  /** The name shown for a vote whose fan is unknown or has no username. */
  const AnonymousFan := "Fan An\U{F3}nimo"

  /** One line of GET /api/outfits; `comments` is always empty there. */
  datatype RankedOutfit = RankedOutfit(id: Id, title: string, image: string, votes: nat,
                                       percentage: nat, ranking: nat, comments: seq<Comment>)

  datatype OutfitList = OutfitList(data: seq<RankedOutfit>, total: nat)

  /** A vote shown as a comment: its reaction as text and as emoji, and who cast it. */
  datatype Comment = Comment(id: Id, text: string, emoji: string, fanName: string)

  /** The reply of GET /api/outfits/:id. */
  datatype OutfitDetail = OutfitDetail(id: Id, title: string, image: string, votes: nat,
                                       percentage: nat, comments: seq<Comment>)

  /** The ranking order: most votes first, and among equal counts the newest first. */
  function Ranking(o: Doc<Outfit>): Key {
    [-(o.body.votes as int), -(o.body.createdAt as int)]
  }

  /** Being ranked before means more votes, or as many and a later creation. */
  lemma RankingOrder(a: Doc<Outfit>, b: Doc<Outfit>)
    ensures KeyLe(Ranking(a), Ranking(b)) <==>
      a.body.votes > b.body.votes || (a.body.votes == b.body.votes && a.body.createdAt >= b.body.createdAt)
  {
    KeyLeTwo(-(a.body.votes as int), -(a.body.createdAt as int), -(b.body.votes as int), -(b.body.createdAt as int));
  }

  function Ranked(o: Doc<Outfit>, totalVotes: nat, position: nat): RankedOutfit {
    RankedOutfit(o.id, o.body.title, o.body.imageUrl, o.body.votes,
                 RoundPercent(o.body.votes, totalVotes), position + 1, [])
  }

  /** GET /api/outfits: every outfit once, ranked 1, 2, 3, ... by votes and then by age, each with
      its counter's share of all Vote records. */
  function ListOutfits(outfits: seq<Doc<Outfit>>, votes: seq<Doc<Vote>>): (r: OutfitList)
    ensures r.total == |r.data| == |outfits|
    ensures forall i :: 0 <= i < |r.data| ==> r.data[i].ranking == i + 1 && r.data[i].comments == []
    ensures forall i :: 0 <= i < |r.data| ==> r.data[i].percentage == RoundPercent(r.data[i].votes, |votes|)
    ensures forall i :: 0 <= i < |r.data| ==>
      exists k :: 0 <= k < |outfits| && r.data[i] == Ranked(outfits[k], |votes|, i)
    ensures forall i, j :: 0 <= i < j < |r.data| ==> r.data[i].votes >= r.data[j].votes
  {
    var ranked := SortBy(outfits, Ranking);
    var data := seq(|ranked|, i requires 0 <= i < |ranked| => Ranked(ranked[i], |votes|, i));
    forall i | 0 <= i < |data| ensures exists k :: 0 <= k < |outfits| && data[i] == Ranked(outfits[k], |votes|, i) {
      SortByDrawsFrom(outfits, Ranking, i);
      var k :| 0 <= k < |outfits| && ranked[i] == outfits[k];
    }
    forall i, j | 0 <= i < j < |data| ensures data[i].votes >= data[j].votes {
      SortedPair(outfits, Ranking, i, j);
      RankingOrder(ranked[i], ranked[j]);
    }
    OutfitList(data, |ranked|)
  }

  /** Every stored outfit has its line in the list. */
  lemma EveryOutfitListed(outfits: seq<Doc<Outfit>>, votes: seq<Doc<Vote>>, k: nat)
    requires k < |outfits|
    ensures exists i ::
      0 <= i < |ListOutfits(outfits, votes).data| && ListOutfits(outfits, votes).data[i] == Ranked(outfits[k], |votes|, i)
  {
    var ranked := SortBy(outfits, Ranking);
    SortByKeeps(outfits, Ranking, k);
    var i :| 0 <= i < |outfits| && ranked[i] == outfits[k];
    assert ListOutfits(outfits, votes).data[i] == Ranked(ranked[i], |votes|, i);
  }

  /** Lines i and j of the list show the outfits ranked i and j, and among outfits with the same
      number of votes the newer one is ranked first. */
  lemma ListTiesNewestFirst(outfits: seq<Doc<Outfit>>, votes: seq<Doc<Vote>>, i: nat, j: nat)
    requires i < j < |outfits|
    ensures var ranked := SortBy(outfits, Ranking);
      && ListOutfits(outfits, votes).data[i] == Ranked(ranked[i], |votes|, i)
      && ListOutfits(outfits, votes).data[j] == Ranked(ranked[j], |votes|, j)
      && (ranked[i].body.votes == ranked[j].body.votes ==> ranked[i].body.createdAt >= ranked[j].body.createdAt)
  {
    var ranked := SortBy(outfits, Ranking);
    assert ListOutfits(outfits, votes).data[i] == Ranked(ranked[i], |votes|, i);
    assert ListOutfits(outfits, votes).data[j] == Ranked(ranked[j], |votes|, j);
    SortedPair(outfits, Ranking, i, j);
    RankingOrder(ranked[i], ranked[j]);
  }

  /** In a consistent store no outfit's share of the votes exceeds 100. */
  lemma ListPercentagesAtMost100(db: Db)
    requires db.Valid()
    ensures forall i :: 0 <= i < |ListOutfits(db.outfits, db.votes).data| ==>
      ListOutfits(db.outfits, db.votes).data[i].percentage <= 100
  {
    var r := ListOutfits(db.outfits, db.votes);
    forall i | 0 <= i < |r.data| ensures r.data[i].percentage <= 100 {
      var k :| 0 <= k < |db.outfits| && r.data[i] == Ranked(db.outfits[k], |db.votes|, i);
      assert db.outfits[k].body.votes == VotesFor(db.votes, db.outfits[k].id);
      PercentAtMost100(r.data[i].votes, |db.votes|);
    }
  }

  /** `vote.fanId?.username || 'Fan Anónimo'`: the voting fan's username when the fan is found and
      the username is not empty, the anonymous name otherwise. */
  function FanName(fans: seq<Doc<Fan>>, fanId: Option<Id>): (r: string)
    ensures r != ""
    ensures fanId.Some? && IndexOf(fans, fanId.value).Some?
              && fans[IndexOf(fans, fanId.value).value].body.profile.username != "" ==>
            r == fans[IndexOf(fans, fanId.value).value].body.profile.username
    ensures fanId.None? || IndexOf(fans, fanId.value).None? ==> r == AnonymousFan
  {
    if fanId.None? then AnonymousFan
    else
      var k := IndexOf(fans, fanId.value);
      if k.None? || fans[k.value].body.profile.username == "" then AnonymousFan
      else fans[k.value].body.profile.username
  }

  /** In a consistent store every known fan is shown by username. */
  lemma FanNameKnown(fans: seq<Doc<Fan>>, next: Id, k: nat)
    requires Allocated(fans, next) && CollectionValid(fans) && k < |fans|
    ensures FanName(fans, Some(fans[k].id)) == fans[k].body.profile.username
  {
    IndexOfAllocated(fans, next, k);
  }

  function CommentOf(v: Doc<Vote>, fans: seq<Doc<Fan>>): Comment {
    Comment(v.id, Symbol(v.body.reaction), Symbol(v.body.reaction), FanName(fans, v.body.fanId))
  }

  /** GET /api/outfits/:id: 404 for an unknown id; otherwise the outfit with one comment per vote
      for it, newest first, and its counter's share of all Vote records. */
  function GetOutfit(outfits: seq<Doc<Outfit>>, votes: seq<Doc<Vote>>, fans: seq<Doc<Fan>>, id: Id)
    : (r: Response<OutfitDetail>)
    ensures r.Fail? <==> IndexOf(outfits, id).None?
    ensures r.Fail? ==> r == Fail(404, OutfitNotFound)
    ensures r.Ok? ==> var o := outfits[IndexOf(outfits, id).value];
      && r.status == 200
      && r.data.id == id && r.data.title == o.body.title && r.data.image == o.body.imageUrl
      && r.data.votes == o.body.votes
      && r.data.percentage == RoundPercent(o.body.votes, |votes|)
    ensures r.Ok? ==> var shown := VotesNewestFirst(votes, id);
      && |r.data.comments| == |shown| == VotesFor(votes, id)
      && forall i :: 0 <= i < |shown| ==> r.data.comments[i] == CommentOf(shown[i], fans)
  {
    var k := IndexOf(outfits, id);
    if k.None? then Fail(404, OutfitNotFound)
    else
      var o := outfits[k.value];
      var shown := VotesNewestFirst(votes, id);
      var comments := seq(|shown|, i requires 0 <= i < |shown| => CommentOf(shown[i], fans));
      Ok(200, OutfitDetail(o.id, o.body.title, o.body.imageUrl, o.body.votes,
                           RoundPercent(o.body.votes, |votes|), comments))
  }

  /** In a consistent store an outfit's page lists as many comments as its counter says it has votes,
      and reports the same percentage as its line in the ranked list. */
  lemma DetailAgreesWithList(db: Db, id: Id)
    requires db.Valid() && IndexOf(db.outfits, id).Some?
    ensures var d := GetOutfit(db.outfits, db.votes, db.fans, id);
      && d.Ok? && |d.data.comments| == d.data.votes
      && exists i :: 0 <= i < |ListOutfits(db.outfits, db.votes).data| &&
           ListOutfits(db.outfits, db.votes).data[i].id == id &&
           ListOutfits(db.outfits, db.votes).data[i].percentage == d.data.percentage
  {
    var k := IndexOf(db.outfits, id).value;
    var l := ListOutfits(db.outfits, db.votes);
    EveryOutfitListed(db.outfits, db.votes, k);
    var i :| 0 <= i < |l.data| && l.data[i] == Ranked(db.outfits[k], |db.votes|, i);
  }

  /** Adding an outfit under the next id keeps the store consistent: no vote can name it yet. */
  lemma AddOutfitKeepsConsistent(outfits: seq<Doc<Outfit>>, votes: seq<Doc<Vote>>, fans: seq<Doc<Fan>>,
                                 questions: seq<Doc<QuestionModel.Question>>,
                                 wallpapers: seq<Doc<WallpaperModel.Wallpaper>>, next: Id, o: Outfit)
    requires Consistent(outfits, votes, fans, questions, wallpapers, next)
    requires OutfitModel.Valid(o) && o.votes == 0
    ensures Consistent(outfits + [Doc(next, o)], votes, fans, questions, wallpapers, next + 1)
  {
    var d := Doc(next, o);
    var after := outfits + [d];
    AllocatedAppend(outfits, next, o);
    forall i | 0 <= i < |votes| ensures IndexOf(after, votes[i].body.outfitId).Some? {
      IndexOfAppend(outfits, d, votes[i].body.outfitId);
    }
    forall i | 0 <= i < |votes| ensures !Matches(OutfitOf, next)(votes[i]) {
      MatchesApply(OutfitOf, next, votes[i]);
    }
    CountNone(votes, Matches(OutfitOf, next));
  }

  /** POST /api/outfits: a new outfit with no votes, or 500 when the schema rejects it. */
  method CreateOutfit(db: Db, title: Option<string>, imageUrl: Option<string>, now: Time)
    returns (r: Response<Doc<Outfit>>)
    requires db.Valid()
    modifies db
    ensures db.Valid()
    ensures r.Fail? <==> NewOutfit(title, imageUrl, now).None?
    ensures r.Fail? ==> r == Fail(500, CreateFailed) && unchanged(db)
    ensures r.Ok? ==>
      && r == Ok(201, Doc(old(db.nextId), NewOutfit(title, imageUrl, now).value))
      && db.outfits == old(db.outfits) + [r.data] && db.nextId == old(db.nextId) + 1
      && db.votes == old(db.votes) && db.fans == old(db.fans)
      && db.questions == old(db.questions) && db.wallpapers == old(db.wallpapers)
  {
    var made := NewOutfit(title, imageUrl, now);
    if made.None? {
      return Fail(500, CreateFailed);
    }
    AddOutfitKeepsConsistent(db.outfits, db.votes, db.fans, db.questions, db.wallpapers, db.nextId, made.value);
    var d := Doc(db.nextId, made.value);
    db.outfits, db.nextId := db.outfits + [d], db.nextId + 1;
    assert Consistent(db.outfits, db.votes, db.fans, db.questions, db.wallpapers, db.nextId);
    r := Ok(201, d);
  }
}

/** The vote endpoints: casting a vote, an outfit's reaction tally, and the voting statistics. */
module VoteRoutes {
  import opened Documents
  import opened Http
  import opened Listing
  import opened VoteModel
  import opened OutfitModel
  import opened FanModel
  import opened QuestionModel
  import opened WallpaperModel
  import opened Store
  import StoreFacts

  /** The request body: the outfit, the voting fan if any, and the reaction if any. */
  datatype VoteRequest = VoteRequest(outfitId: Id, fanId: Option<Id>, reaction: Option<string>)

  /** The success reply: the stored vote and the outfit's new counter and percentage. */
  datatype VoteCast = VoteCast(vote: Doc<Vote>, outfitId: Id, votes: nat, percentage: nat)

  const AlreadyVoted := "You have already voted for this outfit"
  const OutfitNotFound := "Outfit not found"
  const CastFailed := "Error casting vote"

  /** What a vote earns an identified fan, and the points at which a fan becomes a top fan. */
  const VotePoints: nat := 10
  const TopFanPoints: nat := 100

  /** The fan has already voted for this outfit (checked only for an identified fan). */
  predicate Duplicate(votes: seq<Doc<Vote>>, req: VoteRequest) {
    req.fanId.Some? && PairTaken(votes, req.outfitId, req.fanId)
  }

  /** `vote.save()` succeeds: the reaction passes the enum and the unique index has room for the pair. */
  predicate Storable(votes: seq<Doc<Vote>>, req: VoteRequest, now: Time) {
    NewVote(req.outfitId, req.fanId, req.reaction, now).Some? && !PairTaken(votes, req.outfitId, req.fanId)
  }

  /** `outfit.votes += 1` and the save that refreshes updatedAt. */
  function Counted(o: Outfit, now: Time): (r: Outfit)
    ensures r.votes == o.votes + 1 && r.updatedAt == now
    ensures r.(votes := o.votes, updatedAt := o.updatedAt) == o
  {
    o.(votes := o.votes + 1, updatedAt := now)
  }

  /** Ten points for the vote; the top-fan flag is raised at 100 points and never lowered. */
  function AwardVote(p: Profile, now: Time): (r: Profile)
    ensures r.points == p.points + VotePoints
    ensures p.isTopFan ==> r.isTopFan
    ensures r.points >= TopFanPoints ==> r.isTopFan
    ensures r.isTopFan && !p.isTopFan ==> r.points >= TopFanPoints
    ensures r.updatedAt == now
    ensures r.(points := p.points, isTopFan := p.isTopFan, updatedAt := p.updatedAt) == p
  {
    var points := p.points + VotePoints;
    p.(points := points, isTopFan := if points >= TopFanPoints then true else p.isTopFan, updatedAt := now)
  }

  /** The fan collection after a successful vote: the voting fan, when identified and found, is awarded. */
  function Rewarded(fans: seq<Doc<Fan>>, fanId: Option<Id>, now: Time): (r: seq<Doc<Fan>>)
    ensures |r| == |fans|
    ensures forall i :: 0 <= i < |fans| ==> r[i].id == fans[i].id && r[i].body.email == fans[i].body.email
    ensures forall i :: 0 <= i < |fans| && (fanId.None? || fans[i].id != fanId.value) ==> r[i] == fans[i]
    ensures fanId.Some? && IndexOf(fans, fanId.value).Some? ==>
      var j := IndexOf(fans, fanId.value).value;
      r[j].body.profile == AwardVote(fans[j].body.profile, now)
  {
    if fanId.None? then fans
    else
      var j := IndexOf(fans, fanId.value);
      if j.None? then fans
      else
        var f := fans[j.value];
        fans[j.value := Doc(f.id, Fan(f.body.email, AwardVote(f.body.profile, now)))]
  }

  /** Awarding a vote keeps the fans' indexes and the top-fan rule. */
  lemma RewardedValid(fans: seq<Doc<Fan>>, next: Id, fanId: Option<Id>, now: Time)
    requires Allocated(fans, next) && CollectionValid(fans) && TopFansFlagged(fans)
    ensures var after := Rewarded(fans, fanId, now);
      Allocated(after, next) && CollectionValid(after) && TopFansFlagged(after)
  {
    if fanId.Some? && IndexOf(fans, fanId.value).Some? {
      var j := IndexOf(fans, fanId.value).value;
      var f := fans[j];
      var awarded := Doc(f.id, Fan(f.body.email, AwardVote(f.body.profile, now)));
      CollectionValidReplace(fans, j, awarded);
      AllocatedReplace(fans, next, j, awarded.body);
    }
  }

  /** Counting a vote leaves every outfit passing its schema. */
  lemma CountedKeepsValid(outfits: seq<Doc<Outfit>>, k: nat, now: Time)
    requires k < |outfits| && forall i :: 0 <= i < |outfits| ==> OutfitModel.Valid(outfits[i].body)
    ensures var after := outfits[k := Doc(outfits[k].id, Counted(outfits[k].body, now))];
      forall i :: 0 <= i < |after| ==> OutfitModel.Valid(after[i].body)
  {
  }

  /** Storing the vote and counting it on its outfit keeps the store consistent (the fans are untouched). */
  lemma VoteStoredKeepsConsistent(outfits: seq<Doc<Outfit>>, votes: seq<Doc<Vote>>, fans: seq<Doc<Fan>>,
                                  questions: seq<Doc<Question>>, wallpapers: seq<Doc<Wallpaper>>, next: Id,
                                  k: nat, v: Vote, now: Time)
    requires Consistent(outfits, votes, fans, questions, wallpapers, next)
    requires k < |outfits| && v.outfitId == outfits[k].id && !PairTaken(votes, v.outfitId, v.fanId)
    ensures Consistent(outfits[k := Doc(outfits[k].id, Counted(outfits[k].body, now))], votes + [Doc(next, v)],
                       fans, questions, wallpapers, next + 1)
  {
    var d := Doc(next, v);
    var counted := Counted(outfits[k].body, now);
    PairsUniqueAppend(votes, d);
    AllocatedAppend(votes, next, v);
    StoreFacts.CountersAfterVote(outfits, votes, next, k, d, counted);
    StoreFacts.ReferencesAfterVote(outfits, votes, k, d, counted);
    AllocatedReplace(outfits, next, k, counted);
    AllocatedGrow(outfits[k := Doc(outfits[k].id, counted)], next, next + 1);
    CountedKeepsValid(outfits, k, now);
    AllocatedGrow(fans, next, next + 1);
    AllocatedGrow(questions, next, next + 1);
    AllocatedGrow(wallpapers, next, next + 1);
  }

  /** A successful vote takes a consistent store to a consistent store. */
  lemma VoteKeepsConsistent(outfits: seq<Doc<Outfit>>, votes: seq<Doc<Vote>>, fans: seq<Doc<Fan>>,
                            questions: seq<Doc<Question>>, wallpapers: seq<Doc<Wallpaper>>, next: Id,
                            k: nat, v: Vote, now: Time)
    requires Consistent(outfits, votes, fans, questions, wallpapers, next)
    requires k < |outfits| && v.outfitId == outfits[k].id && !PairTaken(votes, v.outfitId, v.fanId)
    ensures Consistent(outfits[k := Doc(outfits[k].id, Counted(outfits[k].body, now))], votes + [Doc(next, v)],
                       Rewarded(fans, v.fanId, now), questions, wallpapers, next + 1)
  {
    var outfits' := outfits[k := Doc(outfits[k].id, Counted(outfits[k].body, now))];
    VoteStoredKeepsConsistent(outfits, votes, fans, questions, wallpapers, next, k, v, now);
    RewardedValid(fans, next + 1, v.fanId, now);
    ConsistentWithFans(outfits', votes + [Doc(next, v)], fans, questions, wallpapers, next + 1,
                       Rewarded(fans, v.fanId, now), next + 1);
  }

  /** POST /api/votes. */
  method CastVote(db: Db, req: VoteRequest, now: Time) returns (r: Response<VoteCast>)
    requires db.Valid()
    modifies db
    ensures db.Valid()
    ensures old(Duplicate(db.votes, req)) ==> r == Fail(400, AlreadyVoted) && unchanged(db)
    ensures !old(Duplicate(db.votes, req)) && old(IndexOf(db.outfits, req.outfitId)).None? ==>
      r == Fail(404, OutfitNotFound) && unchanged(db)
    ensures (!old(Duplicate(db.votes, req)) && old(IndexOf(db.outfits, req.outfitId)).Some?
      && !old(Storable(db.votes, req, now))) ==> r == Fail(500, CastFailed) && unchanged(db)
    ensures r.Ok? <==> old(!Duplicate(db.votes, req) && IndexOf(db.outfits, req.outfitId).Some? && Storable(db.votes, req, now))
    ensures r.Ok? ==>
      var k := old(IndexOf(db.outfits, req.outfitId)).value;
      var v := Doc(old(db.nextId), NewVote(req.outfitId, req.fanId, req.reaction, now).value);
      && db.votes == old(db.votes) + [v]
      && db.nextId == old(db.nextId) + 1
      && db.outfits == old(db.outfits)[k := Doc(req.outfitId, Counted(old(db.outfits)[k].body, now))]
      && db.fans == Rewarded(old(db.fans), req.fanId, now)
      && db.questions == old(db.questions) && db.wallpapers == old(db.wallpapers)
      && r == Ok(200, VoteCast(v, req.outfitId, db.outfits[k].body.votes,
                               RoundPercent(db.outfits[k].body.votes, |db.votes|)))
  {
    if req.fanId.Some? && PairTaken(db.votes, req.outfitId, req.fanId) {
      return Fail(400, AlreadyVoted);
    }
    var k := IndexOf(db.outfits, req.outfitId);
    if k.None? {
      return Fail(404, OutfitNotFound);
    }
    var made := NewVote(req.outfitId, req.fanId, req.reaction, now);
    if made.None? || PairTaken(db.votes, req.outfitId, req.fanId) {
      // vote.save() throws: a reaction outside the enum, or an anonymous vote whose
      // (outfitId, null) pair the unique index already holds
      return Fail(500, CastFailed);
    }
    var v := RecordVote(db, k.value, made.value, now);
    var count := db.outfits[k.value].body.votes;
    r := Ok(200, VoteCast(v, req.outfitId, count, RoundPercent(count, |db.votes|)));
  }

  /** The writes of a vote that passed every check: the vote is saved, then the outfit's counter,
      then the voting fan's points. */
  method RecordVote(db: Db, k: nat, v: Vote, now: Time) returns (d: Doc<Vote>)
    requires db.Valid() && k < |db.outfits| && v.outfitId == db.outfits[k].id
    requires !PairTaken(db.votes, v.outfitId, v.fanId)
    modifies db
    ensures db.Valid()
    ensures d == Doc(old(db.nextId), v)
    ensures db.votes == old(db.votes) + [d] && db.nextId == old(db.nextId) + 1
    ensures db.outfits == old(db.outfits)[k := Doc(v.outfitId, Counted(old(db.outfits)[k].body, now))]
    ensures db.fans == Rewarded(old(db.fans), v.fanId, now)
    ensures db.questions == old(db.questions) && db.wallpapers == old(db.wallpapers)
  {
    var outfits, votes, fans, next := db.outfits, db.votes, db.fans, db.nextId;
    VoteKeepsConsistent(outfits, votes, fans, db.questions, db.wallpapers, next, k, v, now);
    d := Doc(next, v);
    // only once the vote is stored does the outfit's counter move
    db.votes, db.nextId := votes + [d], next + 1;
    db.outfits := outfits[k := Doc(outfits[k].id, Counted(outfits[k].body, now))];
    db.fans := Rewarded(fans, v.fanId, now);
  }

  /** The reply of GET /api/votes/outfit/:id. */
  datatype OutfitVotesReply = OutfitVotesReply(votes: seq<Doc<Vote>>, reactions: map<Reaction, nat>, total: nat)

  /** The count a tally holds for a reaction; a reaction nobody chose is not in the tally. */
  function Tallied(reactions: map<Reaction, nat>, x: Reaction): nat {
    if x in reactions then reactions[x] else 0
  }

  /** GET /api/votes/outfit/:id: the outfit's votes, newest first, tallied by reaction. */
  function OutfitVotes(votes: seq<Doc<Vote>>, outfitId: Id): (r: OutfitVotesReply)
    ensures r.votes == VotesNewestFirst(votes, outfitId)
    ensures r.total == |r.votes| == VotesFor(votes, outfitId)
  {
    var mine := VotesNewestFirst(votes, outfitId);
    OutfitVotesReply(mine, CountBy(mine, ReactionOf), |mine|)
  }

  /** Each reaction's count is the number of the outfit's votes that carry it, and a reaction
      appears in the tally only if some vote carries it. */
  lemma {:induction false} TallyCounts(votes: seq<Doc<Vote>>, outfitId: Id, x: Reaction)
    ensures var r := OutfitVotes(votes, outfitId);
      && (x in r.reactions <==> exists i :: 0 <= i < |r.votes| && r.votes[i].body.reaction == x)
      && Tallied(r.reactions, x) == Count(r.votes, Matches(ReactionOf, x))
  {
    var r := OutfitVotes(votes, outfitId);
    CountByCounts(r.votes, ReactionOf, x);
    CountPositive(r.votes, Matches(ReactionOf, x));
    forall i | 0 <= i < |r.votes| {
      MatchesApply(ReactionOf, x, r.votes[i]);
    }
  }

  lemma {:induction false} CountPositive<T>(s: seq<T>, p: T -> bool)
    ensures Count(s, p) > 0 <==> exists i :: 0 <= i < |s| && p(s[i])
  {
    if s != [] {
      var init := s[..|s| - 1];
      CountPositive(init, p);
      if exists i :: 0 <= i < |init| && p(init[i]) {
        var i :| 0 <= i < |init| && p(init[i]);
        assert s[i] == init[i];
      }
      if exists i :: 0 <= i < |s| && p(s[i]) {
        var i :| 0 <= i < |s| && p(s[i]);
        if i < |init| {
          assert init[i] == s[i];
        }
      }
    }
  }

  lemma {:induction false} ReactionCountsSum(vs: seq<Doc<Vote>>)
    ensures Count(vs, Matches(ReactionOf, Heart)) + Count(vs, Matches(ReactionOf, Fire))
          + Count(vs, Matches(ReactionOf, Clap)) == |vs|
  {
    if vs != [] {
      var init, last := vs[..|vs| - 1], vs[|vs| - 1];
      assert vs == init + [last];
      ReactionCountsSum(init);
      CountAppend(init, last, Matches(ReactionOf, Heart));
      CountAppend(init, last, Matches(ReactionOf, Fire));
      CountAppend(init, last, Matches(ReactionOf, Clap));
      assert last.body.reaction == Heart || last.body.reaction == Fire || last.body.reaction == Clap;
      MatchesApply(ReactionOf, Heart, last);
      MatchesApply(ReactionOf, Fire, last);
      MatchesApply(ReactionOf, Clap, last);
    }
  }

  /** The three reaction counts add up to the total. */
  lemma TallySumsToTotal(votes: seq<Doc<Vote>>, outfitId: Id)
    ensures var r := OutfitVotes(votes, outfitId);
      Tallied(r.reactions, Heart) + Tallied(r.reactions, Fire) + Tallied(r.reactions, Clap) == r.total
  {
    var r := OutfitVotes(votes, outfitId);
    TallyCounts(votes, outfitId, Heart);
    TallyCounts(votes, outfitId, Fire);
    TallyCounts(votes, outfitId, Clap);
    ReactionCountsSum(r.votes);
  }

  /** The fields GET /api/votes/stats selects of an outfit. */
  datatype TopOutfit = TopOutfit(id: Id, title: string, votes: nat, imageUrl: string)

  datatype VoteStatsReply = VoteStatsReply(totalVotes: nat, todayVotes: nat, topOutfits: seq<TopOutfit>)

  /** The filter `{ createdAt: { $gte: startOfDay } }`. */
  function CastSince(startOfDay: Time): Doc<Vote> -> bool {
    (v: Doc<Vote>) => v.body.createdAt >= startOfDay
  }

  const TopOutfitCount: nat := 5

  function MostVotedFirst(o: Doc<Outfit>): Key {
    [-(o.body.votes as int)]
  }

  function Selected(o: Doc<Outfit>): TopOutfit {
    TopOutfit(o.id, o.body.title, o.body.votes, o.body.imageUrl)
  }

  /** GET /api/votes/stats: the number of Vote records, the number cast since the start of the day
      (a parameter: the handler reads the clock), and the five most voted outfits. */
  function VoteStats(outfits: seq<Doc<Outfit>>, votes: seq<Doc<Vote>>, startOfDay: Time): (r: VoteStatsReply)
    ensures r.totalVotes == |votes|
    ensures r.todayVotes == Count(votes, CastSince(startOfDay)) <= r.totalVotes
    ensures |r.topOutfits| == Min(TopOutfitCount, |outfits|)
    ensures forall i, j :: 0 <= i < j < |r.topOutfits| ==> r.topOutfits[i].votes >= r.topOutfits[j].votes
    ensures forall i :: 0 <= i < |r.topOutfits| ==> exists k :: 0 <= k < |outfits| && r.topOutfits[i] == Selected(outfits[k])
    ensures forall i :: 0 <= i < |r.topOutfits| ==>
      i < |outfits| && r.topOutfits[i] == Selected(SortBy(outfits, MostVotedFirst)[i])
  {
    var ranked := SortBy(outfits, MostVotedFirst);
    var top := Window(ranked, 0, TopOutfitCount);
    var selected := seq(|top|, i requires 0 <= i < |top| => Selected(top[i]));
    WindowDrawsFrom(outfits, MostVotedFirst, 0, TopOutfitCount, top);
    forall i | 0 <= i < |selected| ensures exists k :: 0 <= k < |outfits| && selected[i] == Selected(outfits[k]) {
      assert top[i] in outfits;
    }
    assert forall i, j :: 0 <= i < j < |selected| ==> selected[i].votes >= selected[j].votes by {
      forall i, j | 0 <= i < j < |selected| ensures selected[i].votes >= selected[j].votes {
        WindowInOrder(outfits, MostVotedFirst, 0, TopOutfitCount, i, j);
        KeyLeOne(-(top[i].body.votes as int), -(top[j].body.votes as int));
      }
    }
    VoteStatsReply(|votes|, Count(votes, CastSince(startOfDay)), selected)
  }

  /** No outfit left out of the top five has more votes than any outfit in it. */
  lemma TopOutfitsAreTop(outfits: seq<Doc<Outfit>>, votes: seq<Doc<Vote>>, startOfDay: Time, d: Doc<Outfit>)
    requires d in outfits
    requires forall i :: 0 <= i < |VoteStats(outfits, votes, startOfDay).topOutfits| ==> VoteStats(outfits, votes, startOfDay).topOutfits[i].id != d.id
    ensures forall i :: 0 <= i < |VoteStats(outfits, votes, startOfDay).topOutfits| ==>
      VoteStats(outfits, votes, startOfDay).topOutfits[i].votes >= d.body.votes
  {
    var ranked := SortBy(outfits, MostVotedFirst);
    var top := VoteStats(outfits, votes, startOfDay).topOutfits;
    var k :| 0 <= k < |outfits| && outfits[k] == d;
    SortByKeeps(outfits, MostVotedFirst, k);
    var j :| 0 <= j < |ranked| && ranked[j] == d;
    assert |top| <= |ranked|;
    assert forall i :: 0 <= i < |top| ==> top[i] == Selected(ranked[i]);
    assert forall i :: 0 <= i < |top| ==> ranked[i].id != d.id;
    assert j >= |top|;
    forall i | 0 <= i < |top| ensures top[i].votes >= d.body.votes {
      SortedPair(outfits, MostVotedFirst, i, j);
      KeyLeOne(-(ranked[i].body.votes as int), -(d.body.votes as int));
    }
  }
}

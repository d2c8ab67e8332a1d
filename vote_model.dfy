/** The Vote schema: a vote names an outfit, may name a fan, carries one of three reactions,
    and no two votes share the pair (outfitId, fanId). */
module VoteModel {
  import opened Documents
  import opened Listing

  datatype Reaction = Heart | Fire | Clap

  /** The emoji the schema's enum lists for each reaction. */
  function Symbol(r: Reaction): string {
    match r
    case Heart => "\U{1F496}"
    case Fire => "\U{1F525}"
    case Clap => "\U{1F44F}"
  }

  /** The enum check: a string is a reaction exactly when it is one of the three emoji. */
  function ParseReaction(s: string): (r: Option<Reaction>)
    ensures r.Some? ==> Symbol(r.value) == s
    ensures r.None? ==> s != Symbol(Heart) && s != Symbol(Fire) && s != Symbol(Clap)
  {
    if s == Symbol(Heart) then Some(Heart)
    else if s == Symbol(Fire) then Some(Fire)
    else if s == Symbol(Clap) then Some(Clap)
    else None
  }

  /** Every reaction survives the round trip through its emoji. */
  lemma ParseSymbol(r: Reaction)
    ensures ParseReaction(Symbol(r)) == Some(r)
  {
  }

  /** A vote: the outfit is mandatory, the fan is optional (an anonymous vote has none). */
  datatype Vote = Vote(outfitId: Id, fanId: Option<Id>, reaction: Reaction, createdAt: Time)

  /** A new vote as the schema builds it: the reaction defaults to the heart, createdAt to now,
      and a reaction outside the enum fails validation. */
  function NewVote(outfitId: Id, fanId: Option<Id>, reaction: Option<string>, now: Time): (r: Option<Vote>)
    ensures r.Some? <==> reaction.None? || ParseReaction(reaction.value).Some?
    ensures r.Some? ==> r.value.outfitId == outfitId && r.value.fanId == fanId && r.value.createdAt == now
    ensures r.Some? && reaction.None? ==> r.value.reaction == Heart
    ensures r.Some? && reaction.Some? ==> Symbol(r.value.reaction) == reaction.value
  {
    if reaction.None? then Some(Vote(outfitId, fanId, Heart, now))
    else
      var parsed := ParseReaction(reaction.value);
      if parsed.None? then None else Some(Vote(outfitId, fanId, parsed.value, now))
  }

  /** Some stored vote already holds the pair (outfitId, fanId); an absent fan is a value of its own. */
  predicate PairTaken(votes: seq<Doc<Vote>>, outfitId: Id, fanId: Option<Id>) {
    exists i | 0 <= i < |votes| :: votes[i].body.outfitId == outfitId && votes[i].body.fanId == fanId
  }

  /** The unique index on (outfitId, fanId): no two votes hold the same pair. */
  ghost predicate PairsUnique(votes: seq<Doc<Vote>>) {
    forall i, j :: 0 <= i < j < |votes| ==>
      votes[i].body.outfitId != votes[j].body.outfitId || votes[i].body.fanId != votes[j].body.fanId
  }

  /** Inserting a vote whose pair is free keeps the index satisfied. */
  lemma PairsUniqueAppend(votes: seq<Doc<Vote>>, v: Doc<Vote>)
    requires PairsUnique(votes) && !PairTaken(votes, v.body.outfitId, v.body.fanId)
    ensures PairsUnique(votes + [v])
  {
  }

  function OutfitOf(v: Doc<Vote>): Id {
    v.body.outfitId
  }

  function ReactionOf(v: Doc<Vote>): Reaction {
    v.body.reaction
  }

  /** The number of vote records for one outfit. */
  function VotesFor(votes: seq<Doc<Vote>>, outfitId: Id): nat {
    Count(votes, Matches(OutfitOf, outfitId))
  }

  /** A vote's position in the newest-first order. */
  function NewestFirst(v: Doc<Vote>): Key {
    [-(v.body.createdAt as int)]
  }

  /** `Vote.find({ outfitId }).sort({ createdAt: -1 })`: exactly the outfit's votes, newest first. */
  function VotesNewestFirst(votes: seq<Doc<Vote>>, outfitId: Id): (r: seq<Doc<Vote>>)
    ensures |r| == VotesFor(votes, outfitId)
    ensures multiset(r) == multiset(Where(votes, Matches(OutfitOf, outfitId)))
    ensures forall i :: 0 <= i < |r| ==> r[i] in votes && r[i].body.outfitId == outfitId
    ensures forall i :: 0 <= i < |votes| && votes[i].body.outfitId == outfitId ==> votes[i] in r
    ensures forall i, j :: 0 <= i < j < |r| ==> r[i].body.createdAt >= r[j].body.createdAt
  {
    var r := SortBy(Where(votes, Matches(OutfitOf, outfitId)), NewestFirst);
    SortedWhere(votes, Matches(OutfitOf, outfitId), NewestFirst);
    forall i | 0 <= i < |r| ensures r[i].body.outfitId == outfitId {
      MatchesApply(OutfitOf, outfitId, r[i]);
    }
    forall i | 0 <= i < |votes| && votes[i].body.outfitId == outfitId ensures votes[i] in r {
      MatchesApply(OutfitOf, outfitId, votes[i]);
    }
    forall i, j | 0 <= i < j < |r| ensures r[i].body.createdAt >= r[j].body.createdAt {
      SortedPair(Where(votes, Matches(OutfitOf, outfitId)), NewestFirst, i, j);
      KeyLeOne(-(r[i].body.createdAt as int), -(r[j].body.createdAt as int));
    }
    r
  }
}

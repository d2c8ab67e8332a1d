/** The document store: one collection per model, in insertion order, and the source of fresh ids. */
module Store {
  import opened Documents
  import opened Listing
  import opened VoteModel
  import opened OutfitModel
  import opened FanModel
  import opened QuestionModel
  import opened WallpaperModel

  /** Every vote names an outfit that is in the store (votes are only inserted for outfits found). */
  ghost predicate VotesReferenceOutfits(votes: seq<Doc<Vote>>, outfits: seq<Doc<Outfit>>) {
    forall i :: 0 <= i < |votes| ==> IndexOf(outfits, votes[i].body.outfitId).Some?
  }

  /** Each outfit's cached counter equals the number of its vote records. */
  ghost predicate CountersMatch(outfits: seq<Doc<Outfit>>, votes: seq<Doc<Vote>>) {
    forall i :: 0 <= i < |outfits| ==> outfits[i].body.votes == VotesFor(votes, outfits[i].id)
  }

  /** A fan with 100 points or more is a top fan. */
  ghost predicate TopFansFlagged(fans: seq<Doc<Fan>>) {
    forall i :: 0 <= i < |fans| ==> fans[i].body.profile.points >= 100 ==> fans[i].body.profile.isTopFan
  }

  /** The store's invariant, stated on the collections' values. */
  ghost predicate Consistent(outfits: seq<Doc<Outfit>>, votes: seq<Doc<Vote>>, fans: seq<Doc<Fan>>,
                             questions: seq<Doc<Question>>, wallpapers: seq<Doc<Wallpaper>>, nextId: Id)
  {
    && Allocated(outfits, nextId) && Allocated(votes, nextId) && Allocated(fans, nextId)
    && Allocated(questions, nextId) && Allocated(wallpapers, nextId)
    && (forall i :: 0 <= i < |outfits| ==> OutfitModel.Valid(outfits[i].body))
    && PairsUnique(votes)
    && VotesReferenceOutfits(votes, outfits)
    && CountersMatch(outfits, votes)
    && FanModel.CollectionValid(fans)
    && TopFansFlagged(fans)
    && (forall i :: 0 <= i < |questions| ==> QuestionModel.Valid(questions[i].body))
    && (forall i :: 0 <= i < |wallpapers| ==> WallpaperModel.Valid(wallpapers[i].body))
  }

  /** Changing only the fans, in a way that keeps their ids, indexes and top-fan rule, keeps the store consistent. */
  lemma ConsistentWithFans(outfits: seq<Doc<Outfit>>, votes: seq<Doc<Vote>>, fans: seq<Doc<Fan>>,
                           questions: seq<Doc<Question>>, wallpapers: seq<Doc<Wallpaper>>, next: Id,
                           fans': seq<Doc<Fan>>, next': Id)
    requires Consistent(outfits, votes, fans, questions, wallpapers, next) && next <= next'
    requires Allocated(fans', next') && CollectionValid(fans') && TopFansFlagged(fans')
    ensures Consistent(outfits, votes, fans', questions, wallpapers, next')
  {
    AllocatedGrow(outfits, next, next');
    AllocatedGrow(votes, next, next');
    AllocatedGrow(questions, next, next');
    AllocatedGrow(wallpapers, next, next');
  }

  /** Changing only the questions, keeping their ids allocated and each valid, keeps the store consistent. */
  lemma ConsistentWithQuestions(outfits: seq<Doc<Outfit>>, votes: seq<Doc<Vote>>, fans: seq<Doc<Fan>>,
                                questions: seq<Doc<Question>>, wallpapers: seq<Doc<Wallpaper>>, next: Id,
                                questions': seq<Doc<Question>>, next': Id)
    requires Consistent(outfits, votes, fans, questions, wallpapers, next) && next <= next'
    requires Allocated(questions', next') && forall i :: 0 <= i < |questions'| ==> QuestionModel.Valid(questions'[i].body)
    ensures Consistent(outfits, votes, fans, questions', wallpapers, next')
  {
    AllocatedGrow(outfits, next, next');
    AllocatedGrow(votes, next, next');
    AllocatedGrow(fans, next, next');
    AllocatedGrow(wallpapers, next, next');
  }

  /** Changing only the wallpapers, keeping their ids allocated and each valid, keeps the store consistent. */
  lemma ConsistentWithWallpapers(outfits: seq<Doc<Outfit>>, votes: seq<Doc<Vote>>, fans: seq<Doc<Fan>>,
                                 questions: seq<Doc<Question>>, wallpapers: seq<Doc<Wallpaper>>, next: Id,
                                 wallpapers': seq<Doc<Wallpaper>>, next': Id)
    requires Consistent(outfits, votes, fans, questions, wallpapers, next) && next <= next'
    requires Allocated(wallpapers', next') && forall i :: 0 <= i < |wallpapers'| ==> WallpaperModel.Valid(wallpapers'[i].body)
    ensures Consistent(outfits, votes, fans, questions, wallpapers', next')
  {
    AllocatedGrow(outfits, next, next');
    AllocatedGrow(votes, next, next');
    AllocatedGrow(fans, next, next');
    AllocatedGrow(questions, next, next');
  }

  class Db {
    var outfits: seq<Doc<Outfit>>
    var votes: seq<Doc<Vote>>
    var fans: seq<Doc<Fan>>
    var questions: seq<Doc<Question>>
    var wallpapers: seq<Doc<Wallpaper>>
    var nextId: Id

    /** The schemas' constraints and indexes, and what the handlers keep true between requests. */
    ghost predicate Valid()
      reads this
    {
      Consistent(outfits, votes, fans, questions, wallpapers, nextId)
    }

    /** An empty store. */
    constructor ()
      ensures Valid()
      ensures outfits == [] && votes == [] && fans == [] && questions == [] && wallpapers == []
    {
      outfits, votes, fans, questions, wallpapers := [], [], [], [], [];
      nextId := 0;
    }
  }
}

/** What the store's invariant says about all outfits at once. */
module StoreFacts {
  import opened Documents
  import opened Listing
  import opened VoteModel
  import opened OutfitModel
  import opened Store

  /** The sum of the cached counters. */
  function CounterSum(outfits: seq<Doc<Outfit>>): nat {
    if outfits == [] then 0 else outfits[0].body.votes + CounterSum(outfits[1..])
  }

  /** The number of vote records, summed outfit by outfit. */
  function RecordSum(outfits: seq<Doc<Outfit>>, votes: seq<Doc<Vote>>): nat {
    if outfits == [] then 0 else VotesFor(votes, outfits[0].id) + RecordSum(outfits[1..], votes)
  }

  /** How many outfits carry the id. */
  function Hits(outfits: seq<Doc<Outfit>>, id: Id): nat {
    if outfits == [] then 0 else (if outfits[0].id == id then 1 else 0) + Hits(outfits[1..], id)
  }

  lemma {:induction false} HitsOnce(outfits: seq<Doc<Outfit>>, next: Id, id: Id)
    requires Allocated(outfits, next)
    ensures Hits(outfits, id) == (if IndexOf(outfits, id).Some? then 1 else 0)
  {
    if outfits != [] {
      HitsOnce(outfits[1..], next, id);
      if outfits[0].id == id {
        assert forall i :: 0 <= i < |outfits[1..]| ==> outfits[1..][i].id == outfits[i + 1].id;
      }
    }
  }

  lemma {:induction false} RecordSumEmpty(outfits: seq<Doc<Outfit>>)
    ensures RecordSum(outfits, []) == 0
  {
    if outfits != [] {
      RecordSumEmpty(outfits[1..]);
    }
  }

  lemma {:induction false} RecordSumAppend(outfits: seq<Doc<Outfit>>, votes: seq<Doc<Vote>>, v: Doc<Vote>)
    ensures RecordSum(outfits, votes + [v]) == RecordSum(outfits, votes) + Hits(outfits, v.body.outfitId)
  {
    if outfits != [] {
      CountAppend(votes, v, Matches(OutfitOf, outfits[0].id));
      MatchesApply(OutfitOf, outfits[0].id, v);
      RecordSumAppend(outfits[1..], votes, v);
    }
  }

  /** When every vote names a stored outfit, the per-outfit record counts add up to all the votes. */
  lemma {:induction false} RecordSumIsTotal(outfits: seq<Doc<Outfit>>, votes: seq<Doc<Vote>>, next: Id)
    requires Allocated(outfits, next) && VotesReferenceOutfits(votes, outfits)
    ensures RecordSum(outfits, votes) == |votes|
  {
    if votes == [] {
      RecordSumEmpty(outfits);
    } else {
      var init, last := votes[..|votes| - 1], votes[|votes| - 1];
      assert votes == init + [last];
      RecordSumIsTotal(outfits, init, next);
      RecordSumAppend(outfits, init, last);
      HitsOnce(outfits, next, last.body.outfitId);
    }
  }

  lemma {:induction false} CounterSumIsRecordSum(outfits: seq<Doc<Outfit>>, votes: seq<Doc<Vote>>)
    requires CountersMatch(outfits, votes)
    ensures CounterSum(outfits) == RecordSum(outfits, votes)
  {
    if outfits != [] {
      assert CountersMatch(outfits[1..], votes) by {
        forall i | 0 <= i < |outfits[1..]| ensures outfits[1..][i].body.votes == VotesFor(votes, outfits[1..][i].id) {
          assert outfits[1..][i] == outfits[i + 1];
        }
      }
      CounterSumIsRecordSum(outfits[1..], votes);
    }
  }

  /** In a valid store the outfits' counters add up to the number of Vote records, so the
      percentages the listings report are shares of one total. */
  lemma CountersSumToVotes(db: Db)
    requires db.Valid()
    ensures CounterSum(db.outfits) == |db.votes|
  {
    CounterSumIsRecordSum(db.outfits, db.votes);
    RecordSumIsTotal(db.outfits, db.votes, db.nextId);
  }

  /** Recording a vote for the outfit at position k and bumping its counter keeps every counter exact. */
  lemma CountersAfterVote(outfits: seq<Doc<Outfit>>, votes: seq<Doc<Vote>>, next: Id, k: nat, v: Doc<Vote>, counted: Outfit)
    requires Allocated(outfits, next) && CountersMatch(outfits, votes)
    requires k < |outfits| && v.body.outfitId == outfits[k].id
    requires counted.votes == outfits[k].body.votes + 1
    ensures CountersMatch(outfits[k := Doc(outfits[k].id, counted)], votes + [v])
  {
    var after := outfits[k := Doc(outfits[k].id, counted)];
    forall i | 0 <= i < |after| ensures after[i].body.votes == VotesFor(votes + [v], after[i].id) {
      CountAppend(votes, v, Matches(OutfitOf, after[i].id));
      MatchesApply(OutfitOf, after[i].id, v);
      if i != k {
        assert after[i] == outfits[i] && outfits[i].id != outfits[k].id;
      }
    }
  }

  /** The same vote records, with an outfit's body changed in place, still all name stored outfits. */
  lemma ReferencesAfterVote(outfits: seq<Doc<Outfit>>, votes: seq<Doc<Vote>>, k: nat, v: Doc<Vote>, counted: Outfit)
    requires VotesReferenceOutfits(votes, outfits)
    requires k < |outfits| && v.body.outfitId == outfits[k].id
    ensures VotesReferenceOutfits(votes + [v], outfits[k := Doc(outfits[k].id, counted)])
  {
    var after := outfits[k := Doc(outfits[k].id, counted)];
    forall i | 0 <= i < |votes + [v]| ensures IndexOf(after, (votes + [v])[i].body.outfitId).Some? {
      IndexOfReplace(outfits, k, counted, (votes + [v])[i].body.outfitId);
    }
  }
}

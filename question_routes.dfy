/** The question endpoints: the paged list of answered questions, submission, answering and the
    pending list. */
module QuestionRoutes {
  import opened Documents
  import opened Http
  import opened Listing
  import opened Text
  import opened QuestionModel
  import opened Store

  const ListFailed := "Error fetching questions"
  const QuestionRequired := "Question is required"
  const SubmitFailed := "Error submitting question"
  const QuestionNotFound := "Question not found"

  /** The name stored when the submitter gives none. */
  const AnonymousFan := "Fan An\U{F3}nimo"

  /** What marks an answer as a video link, and the duration every video reports. */
  const LinkMarker := "http"
  const VideoDuration := "4:32"

  const DefaultPage: int := 1
  const DefaultLimit: int := 20

  /** The filter `{ answer: { $exists: true, $ne: null } }`. */
  predicate Answered(q: Doc<Question>) {
    q.body.answer.Some?
  }

  /** The filter `$or: [{ answer missing }, { answer: null }, { answer: '' }]`. */
  predicate Pending(q: Doc<Question>) {
    q.body.answer.None? || q.body.answer == Some("")
  }

  /** Every question is answered or pending, and it is both exactly when its answer is the empty string. */
  lemma AnsweredPendingOverlap(q: Doc<Question>)
    ensures Answered(q) || Pending(q)
    ensures Answered(q) && Pending(q) <==> q.body.answer == Some("")
  {
  }

  function NewestFirst(q: Doc<Question>): Key {
    [-(q.body.createdAt as int)]
  }

  /** A question as the list shows it (the random `likes` figure is not part of the model). */
  datatype Shown = Shown(id: Id, question: string, answer: string, kind: string,
                         videoThumbnail: Option<string>, duration: Option<string>, timestamp: Time)

  /** An answer containing "http" is a video whose thumbnail is the answer itself; any other is text. */
  function Format(q: Doc<Question>): (r: Shown)
    requires Answered(q)
    ensures r.id == q.id && r.question == q.body.text && r.answer == q.body.answer.value
    ensures r.timestamp == q.body.createdAt
    ensures r.kind == "video" <==> exists i: nat :: OccursAt(q.body.answer.value, LinkMarker, i)
    ensures r.kind == "video" || r.kind == "text"
    ensures r.kind == "video" ==> r.videoThumbnail == Some(r.answer) && r.duration == Some(VideoDuration)
    ensures r.kind == "text" ==> r.videoThumbnail.None? && r.duration.None?
  {
    var a := q.body.answer.value;
    if Contains(a, LinkMarker) then Shown(q.id, q.body.text, a, "video", Some(a), Some(VideoDuration), q.body.createdAt)
    else Shown(q.id, q.body.text, a, "text", None, None, q.body.createdAt)
  }

  datatype QuestionPage = QuestionPage(data: seq<Shown>, page: int, limit: int, total: nat, pages: Option<int>)

  /** A page of answered questions holds answered questions of the collection, newest first. */
  lemma AnsweredPage(questions: seq<Doc<Question>>, skip: nat, limit: int, w: seq<Doc<Question>>)
    requires w == Window(SortBy(Where(questions, Answered), NewestFirst), skip, limit)
    ensures forall i :: 0 <= i < |w| ==> w[i] in questions && Answered(w[i])
    ensures forall i, j :: 0 <= i < j < |w| ==> w[i].body.createdAt >= w[j].body.createdAt
  {
    var answered := Where(questions, Answered);
    SortedWhere(questions, Answered, NewestFirst);
    forall i, j | 0 <= i < j < |w| ensures w[i].body.createdAt >= w[j].body.createdAt {
      WindowInOrder(answered, NewestFirst, skip, limit, i, j);
      KeyLeOne(-(w[i].body.createdAt as int), -(w[j].body.createdAt as int));
    }
  }

  /** The answered questions from position skip, at most limit of them, newest first, as the list shows them. */
  function AnsweredShown(questions: seq<Doc<Question>>, skip: nat, limit: int): (r: seq<Shown>)
    ensures |r| == |Window(SortBy(Where(questions, Answered), NewestFirst), skip, limit)|
    ensures forall i :: 0 <= i < |r| ==>
      && Answered(Window(SortBy(Where(questions, Answered), NewestFirst), skip, limit)[i])
      && r[i] == Format(Window(SortBy(Where(questions, Answered), NewestFirst), skip, limit)[i])
    ensures forall i :: 0 <= i < |r| ==> Window(SortBy(Where(questions, Answered), NewestFirst), skip, limit)[i] in questions
    ensures forall i, j :: 0 <= i < j < |r| ==> r[i].timestamp >= r[j].timestamp
  {
    var window := Window(SortBy(Where(questions, Answered), NewestFirst), skip, limit);
    AnsweredPage(questions, skip, limit, window);
    seq(|window|, i requires 0 <= i < |window| => Format(window[i]))
  }

  /** GET /api/questions: the answered questions, newest first, from position (page-1)*limit and at
      most limit of them; `total` counts all answered questions; a negative skip becomes a 500. */
  function ListAnswered(questions: seq<Doc<Question>>, page: Option<int>, limit: Option<int>): (r: Response<QuestionPage>)
    ensures var page, limit := page.GetOr(DefaultPage), limit.GetOr(DefaultLimit);
      && (r.Fail? <==> (page - 1) * limit < 0)
      && (r.Fail? ==> r == Fail(500, ListFailed))
      && (r.Ok? ==>
        && r.status == 200
        && r.data.page == page && r.data.limit == limit
        && r.data.total == Count(questions, Answered) && r.data.pages == PageCount(r.data.total, limit)
        && r.data.data == AnsweredShown(questions, (page - 1) * limit, limit)
        && |r.data.data| <= r.data.total
        && (LimitCap(limit).Some? ==> |r.data.data| <= LimitCap(limit).value))
  {
    var page, limit := page.GetOr(DefaultPage), limit.GetOr(DefaultLimit);
    var skip := (page - 1) * limit;
    if skip < 0 then Fail(500, ListFailed)
    else
      var answered := Where(questions, Answered);
      Ok(200, QuestionPage(AnsweredShown(questions, skip, limit), page, limit, |answered|, PageCount(|answered|, limit)))
  }

  /** Inside the list, a page is as long as its limit. */
  lemma AnsweredShownFull(questions: seq<Doc<Question>>, skip: nat, limit: nat)
    requires limit >= 1 && skip + limit <= Count(questions, Answered)
    ensures |AnsweredShown(questions, skip, limit)| == limit
  {
    var sorted := SortBy(Where(questions, Answered), NewestFirst);
    assert |sorted| == Count(questions, Answered);
    assert LimitCap(limit) == Some(limit);
  }

  /** A full page is exactly the answered questions at positions skip up to skip + limit of the newest-first
      order (ListAnswered shows it for skip = (page-1)*limit): entry i is the one at skip + i. */
  lemma AnsweredShownIsSlice(questions: seq<Doc<Question>>, skip: nat, limit: nat, i: nat)
    requires limit >= 1 && skip + limit <= Count(questions, Answered) && i < limit
    ensures |AnsweredShown(questions, skip, limit)| == limit
    ensures Answered(SortBy(Where(questions, Answered), NewestFirst)[skip + i])
    ensures AnsweredShown(questions, skip, limit)[i] == Format(SortBy(Where(questions, Answered), NewestFirst)[skip + i])
  {
    AnsweredShownFull(questions, skip, limit);
    var sorted := SortBy(Where(questions, Answered), NewestFirst);
    var w := Window(sorted, skip, limit);
    assert w[i] == sorted[skip + i];
  }

  /** GET /api/questions/pending: the unanswered questions (and those answered with ''), newest first. */
  function ListPending(questions: seq<Doc<Question>>): (r: seq<Doc<Question>>)
    ensures |r| == Count(questions, Pending)
    ensures forall i :: 0 <= i < |r| ==> r[i] in questions && Pending(r[i])
    ensures forall k :: 0 <= k < |questions| && Pending(questions[k]) ==> questions[k] in r
    ensures forall i, j :: 0 <= i < j < |r| ==> r[i].body.createdAt >= r[j].body.createdAt
  {
    var r := SortBy(Where(questions, Pending), NewestFirst);
    SortedWhere(questions, Pending, NewestFirst);
    forall i, j | 0 <= i < j < |r| ensures r[i].body.createdAt >= r[j].body.createdAt {
      SortedPair(Where(questions, Pending), NewestFirst, i, j);
      KeyLeOne(-(r[i].body.createdAt as int), -(r[j].body.createdAt as int));
    }
    r
  }

  /** `fanName.trim()` after the default: the trimmed name given, or the anonymous name, which
      trimming leaves as it is. */
  function NameStored(fanName: Option<string>): (r: string)
    ensures fanName.None? ==> r == AnonymousFan
    ensures fanName.Some? ==> r == Trim(fanName.value)
  {
    if fanName.Some? then Trim(fanName.value) else AnonymousFan
  }

  /** The anonymous name has no white space at either end, so trimming leaves it as it is. */
  lemma AnonymousFanTrimmed()
    ensures Trim(AnonymousFan) == AnonymousFan
  {
    var n := AnonymousFan;
    assert n[0] == 'F' && n[|n| - 1] == 'o';
    TrimKeeps(n);
  }

  lemma NameStoredIsTrimmed(fanName: Option<string>)
    ensures NameStored(fanName) == Trim(fanName.GetOr(AnonymousFan))
  {
    AnonymousFanTrimmed();
  }

  /** What a submission stores: the trimmed question under the stored name. */
  function Submitted(question: string, fanName: Option<string>, now: Time): Option<Question> {
    NewQuestion(NameStored(fanName), Trim(question), now)
  }

  /** `!question || question.trim().length === 0`: the submission carries no question. */
  predicate Blank(question: Option<string>) {
    question.None? || question.value == "" || Trim(question.value) == ""
  }

  lemma BlankIsAllSpace(question: Option<string>)
    ensures Blank(question) <==> question.None? || AllSpace(question.value)
  {
  }

  /** Adding a valid question under the next id keeps the store consistent. */
  lemma AddQuestionKeepsConsistent(outfits: seq<Doc<OutfitModel.Outfit>>, votes: seq<Doc<VoteModel.Vote>>,
                                   fans: seq<Doc<FanModel.Fan>>, questions: seq<Doc<Question>>,
                                   wallpapers: seq<Doc<WallpaperModel.Wallpaper>>, next: Id, q: Question)
    requires Consistent(outfits, votes, fans, questions, wallpapers, next) && Valid(q)
    ensures Consistent(outfits, votes, fans, questions + [Doc(next, q)], wallpapers, next + 1)
  {
    AllocatedAppend(questions, next, q);
    ConsistentWithQuestions(outfits, votes, fans, questions, wallpapers, next, questions + [Doc(next, q)], next + 1);
  }

  /** POST /api/questions: 400 and nothing stored for a blank question; 500 and nothing stored when the
      trimmed name is empty or the trimmed text is longer than 500; otherwise the stored, unanswered question. */
  method Submit(db: Db, question: Option<string>, fanName: Option<string>, now: Time) returns (r: Response<Doc<Question>>)
    requires db.Valid()
    modifies db
    ensures db.Valid()
    ensures Blank(question) ==> r == Fail(400, QuestionRequired) && unchanged(db)
    ensures !Blank(question) && Submitted(question.value, fanName, now).None? ==> r == Fail(500, SubmitFailed) && unchanged(db)
    ensures r.Ok? <==> !Blank(question) && Submitted(question.value, fanName, now).Some?
    ensures r.Ok? ==>
      && r == Ok(201, Doc(old(db.nextId), Submitted(question.value, fanName, now).value))
      && r.data.body.text == Trim(question.value) && r.data.body.answer.None?
      && db.questions == old(db.questions) + [r.data] && db.nextId == old(db.nextId) + 1
      && db.outfits == old(db.outfits) && db.votes == old(db.votes)
      && db.fans == old(db.fans) && db.wallpapers == old(db.wallpapers)
  {
    if Blank(question) {
      return Fail(400, QuestionRequired);
    }
    var made := Submitted(question.value, fanName, now);
    if made.None? {
      return Fail(500, SubmitFailed);
    }
    var d := Save(db, made.value);
    r := Ok(201, d);
  }

  /** `save()` of a question the schema accepts: it is stored under the next id and nothing else changes. */
  method Save(db: Db, q: Question) returns (d: Doc<Question>)
    requires db.Valid() && Valid(q)
    modifies db
    ensures db.Valid()
    ensures d == Doc(old(db.nextId), q)
    ensures db.questions == old(db.questions) + [d] && db.nextId == old(db.nextId) + 1
    ensures db.outfits == old(db.outfits) && db.votes == old(db.votes)
    ensures db.fans == old(db.fans) && db.wallpapers == old(db.wallpapers)
  {
    AddQuestionKeepsConsistent(db.outfits, db.votes, db.fans, db.questions, db.wallpapers, db.nextId, q);
    d := Doc(db.nextId, q);
    db.questions, db.nextId := db.questions + [d], db.nextId + 1;
    assert Consistent(db.outfits, db.votes, db.fans, db.questions, db.wallpapers, db.nextId);
  }

  /** A non-blank submission is stored exactly when its trimmed text fits the schema's limit and the
      name it is stored under is not empty; a name of white space only is refused at any length. */
  lemma SubmittedWithinLimit(question: string, fanName: Option<string>, now: Time)
    requires Trim(question) != ""
    ensures Submitted(question, fanName, now).Some? <==>
      NameStored(fanName) != "" && Utf16Length(Trim(question)) <= MaxTextLength
    ensures fanName.None? ==>
      (Submitted(question, fanName, now).Some? <==> Utf16Length(Trim(question)) <= MaxTextLength)
  {
  }

  /** PUT /api/questions/:id/answer: 404 for an unknown id; otherwise only that question's answer is
      replaced (an absent answer removes it). */
  method AnswerQuestion(db: Db, id: Id, answer: Option<string>) returns (r: Response<Doc<Question>>)
    requires db.Valid()
    modifies db
    ensures db.Valid()
    ensures r.Fail? <==> old(IndexOf(db.questions, id)).None?
    ensures r.Fail? ==> r == Fail(404, QuestionNotFound) && unchanged(db)
    ensures r.Ok? ==>
      var k := old(IndexOf(db.questions, id)).value;
      && |db.questions| == |old(db.questions)|
      && db.questions[k].id == id && db.questions[k].body == old(db.questions)[k].body.(answer := answer)
      && (forall i :: 0 <= i < |db.questions| && i != k ==> db.questions[i] == old(db.questions)[i])
      && r == Ok(200, db.questions[k])
      && db.outfits == old(db.outfits) && db.votes == old(db.votes) && db.fans == old(db.fans)
      && db.wallpapers == old(db.wallpapers) && db.nextId == old(db.nextId)
  {
    var k := IndexOf(db.questions, id);
    if k.None? {
      return Fail(404, QuestionNotFound);
    }
    var q := db.questions[k.value];
    var answered := Doc(q.id, q.body.(answer := answer));
    AllocatedReplace(db.questions, db.nextId, k.value, answered.body);
    ConsistentWithQuestions(db.outfits, db.votes, db.fans, db.questions, db.wallpapers, db.nextId,
                            db.questions[k.value := answered], db.nextId);
    db.questions := db.questions[k.value := answered];
    assert Consistent(db.outfits, db.votes, db.fans, db.questions, db.wallpapers, db.nextId);
    r := Ok(200, answered);
  }
}

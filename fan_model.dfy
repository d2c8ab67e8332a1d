/** The Fan schema: a required unique username, an optional email unique among the fans that have one,
    points starting at 0 and the top-fan flag starting false. The profile fields the handlers read and
    write beyond those (bio, location, social links, preferences, level, badges, stats, avatar and the
    activity dates) are kept as optional stored fields; nothing in the schema gives them defaults. */
module FanModel {
  import opened Documents

  datatype Badge = Badge(name: string)

  /** Everything stored about a fan except the email. */
  datatype Profile = Profile(
    username: string,
    bio: Option<string>,
    location: Option<string>,
    socialMedia: map<string, string>,
    preferences: Option<map<string, string>>,
    points: nat,
    isTopFan: bool,
    avatar: Option<string>,
    level: Option<int>,
    badges: Option<seq<Badge>>,
    stats: Option<map<string, int>>,
    joinedAt: Option<Time>,
    lastActive: Option<Time>,
    isVip: Option<bool>,
    isVerified: Option<bool>,
    createdAt: Time,
    updatedAt: Time)

  datatype Fan = Fan(email: Option<string>, profile: Profile)

  /** The fan as every response shows it: the same document without its email. */
  function Public(f: Doc<Fan>): Doc<Profile> {
    Doc(f.id, f.body.profile)
  }

  predicate Valid(f: Fan) {
    f.profile.username != ""
  }

  /** `findOne({ username })` finds a fan. */
  predicate UsernameTaken(fans: seq<Doc<Fan>>, username: string) {
    exists i | 0 <= i < |fans| :: fans[i].body.profile.username == username
  }

  /** `findOne({ email })` finds a fan. */
  predicate EmailTaken(fans: seq<Doc<Fan>>, email: string) {
    exists i | 0 <= i < |fans| :: fans[i].body.email == Some(email)
  }

  /** The unique index on username. */
  ghost predicate UsernamesUnique(fans: seq<Doc<Fan>>) {
    forall i, j :: 0 <= i < j < |fans| ==> fans[i].body.profile.username != fans[j].body.profile.username
  }

  /** The sparse unique index on email: fans without an email are not indexed. */
  ghost predicate EmailsUnique(fans: seq<Doc<Fan>>) {
    forall i, j :: 0 <= i < j < |fans| && fans[i].body.email.Some? ==> fans[i].body.email != fans[j].body.email
  }

  ghost predicate CollectionValid(fans: seq<Doc<Fan>>) {
    && (forall i :: 0 <= i < |fans| ==> Valid(fans[i].body))
    && UsernamesUnique(fans)
    && EmailsUnique(fans)
  }

  /** A new fan with the schema's defaults; it fails validation when the username is empty. */
  function NewFan(username: string, email: Option<string>, bio: Option<string>, location: Option<string>,
                  socialMedia: map<string, string>, now: Time): (r: Option<Fan>)
    ensures r.Some? <==> username != ""
    ensures r.Some? ==> Valid(r.value) && r.value.email == email
    ensures r.Some? ==> var p := r.value.profile;
      && p.username == username && p.bio == bio && p.location == location && p.socialMedia == socialMedia
      && p.points == 0 && !p.isTopFan && p.createdAt == now && p.updatedAt == now
  {
    if username == "" then None
    else Some(Fan(email, Profile(username, bio, location, socialMedia, None, 0, false,
                                 None, None, None, None, None, None, None, None, now, now)))
  }

  /** Adding a fan whose username and email are free keeps both indexes satisfied. */
  lemma CollectionValidAppend(fans: seq<Doc<Fan>>, f: Doc<Fan>)
    requires CollectionValid(fans) && Valid(f.body)
    requires !UsernameTaken(fans, f.body.profile.username)
    requires f.body.email.None? || !EmailTaken(fans, f.body.email.value)
    ensures CollectionValid(fans + [f])
  {
  }

  /** Changing a fan's profile in place, keeping its username and email, keeps the collection valid. */
  lemma CollectionValidReplace(fans: seq<Doc<Fan>>, k: nat, f: Doc<Fan>)
    requires CollectionValid(fans) && k < |fans|
    requires f.body.email == fans[k].body.email
    requires f.body.profile.username == fans[k].body.profile.username
    ensures CollectionValid(fans[k := f])
  {
  }
}

/** The Outfit schema: a required title and image, a vote counter starting at 0, and timestamps. */
module OutfitModel {
  import opened Documents

  datatype Outfit = Outfit(title: string, imageUrl: string, votes: nat, createdAt: Time, updatedAt: Time)

  predicate Valid(o: Outfit) {
    o.title != "" && o.imageUrl != ""
  }

  /** A new outfit from the two fields the schema requires; it fails validation when either is missing or empty. */
  function NewOutfit(title: Option<string>, imageUrl: Option<string>, now: Time): (r: Option<Outfit>)
    ensures r.Some? <==> Required(title) && Required(imageUrl)
    ensures r.Some? ==> Valid(r.value)
    ensures r.Some? ==> r.value.title == title.value && r.value.imageUrl == imageUrl.value
    ensures r.Some? ==> r.value.votes == 0 && r.value.createdAt == now && r.value.updatedAt == now
  {
    if Required(title) && Required(imageUrl) then Some(Outfit(title.value, imageUrl.value, 0, now, now))
    else None
  }
}

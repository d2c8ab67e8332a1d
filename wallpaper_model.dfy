/** The Wallpaper schema: a required title and image, a download counter starting at 0, and timestamps. */
module WallpaperModel {
  import opened Documents

  datatype Wallpaper = Wallpaper(title: string, imageUrl: string, downloads: nat, createdAt: Time, updatedAt: Time)

  predicate Valid(w: Wallpaper) {
    w.title != "" && w.imageUrl != ""
  }

  /** A new wallpaper from the two fields the schema requires; it fails validation when either is missing or empty. */
  function NewWallpaper(title: Option<string>, imageUrl: Option<string>, now: Time): (r: Option<Wallpaper>)
    ensures r.Some? <==> Required(title) && Required(imageUrl)
    ensures r.Some? ==> Valid(r.value)
    ensures r.Some? ==> r.value.title == title.value && r.value.imageUrl == imageUrl.value
    ensures r.Some? ==> r.value.downloads == 0 && r.value.createdAt == now && r.value.updatedAt == now
  {
    if Required(title) && Required(imageUrl) then Some(Wallpaper(title.value, imageUrl.value, 0, now, now))
    else None
  }
}

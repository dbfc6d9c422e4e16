/**
 * `ImagesService`: the image table with save, the per-user gallery query (newest first) and a
 * delete that only the owner may perform.
 */
module Images {
  import opened Wrappers
  import opened Seqs
  import opened Sorting

  /** A row of `images`; `imageId` is generated, `imageCreatedAt` is the insertion time. */
  datatype Image = Image(
    imageId: string,
    imageUrl: string,
    imagePrompt: string,
    imageTheme: Option<string>,
    imageSize: Option<string>,
    userId: string,
    imageCreatedAt: int)

  /** The columns the gallery query selects: every one but `userId`. */
  datatype GalleryEntry = GalleryEntry(
    imageId: string,
    imageUrl: string,
    imagePrompt: string,
    imageTheme: Option<string>,
    imageSize: Option<string>,
    imageCreatedAt: int)

  function EntryOf(i: Image): GalleryEntry {
    GalleryEntry(i.imageId, i.imageUrl, i.imagePrompt, i.imageTheme, i.imageSize, i.imageCreatedAt)
  }

  /** The sort key of `ORDER BY imageCreatedAt DESC`. */
  function Newest(i: Image): int {
    -i.imageCreatedAt
  }

  function OwnedBy(userId: string): Image -> bool {
    (i: Image) => i.userId == userId
  }

  function HasImageId(imageId: string): Image -> bool {
    (i: Image) => i.imageId == imageId
  }

  function NotImageId(imageId: string): Image -> bool {
    (i: Image) => i.imageId != imageId
  }

  /** The gallery of a user: their images, newest first, without the `userId` column. */
  function Gallery(images: seq<Image>, userId: string): (r: seq<GalleryEntry>)
    ensures |r| == |Filter(images, OwnedBy(userId))|
    ensures forall i, j :: 0 <= i < j < |r| ==> r[i].imageCreatedAt >= r[j].imageCreatedAt
    ensures forall i :: 0 <= i < |r| ==> exists img :: img in images && img.userId == userId && r[i] == EntryOf(img)
    ensures forall img :: img in images && img.userId == userId ==> EntryOf(img) in r
  {
    var sorted := SortBy(Filter(images, OwnedBy(userId)), Newest);
    SortedFilterMembers(images, OwnedBy(userId), Newest);
    Map(sorted, EntryOf)
  }

  /** Each of the user's images appears in the gallery exactly as often as in the table. */
  lemma GalleryCounts(images: seq<Image>, userId: string)
    ensures multiset(Gallery(images, userId)) == multiset(Map(Filter(images, OwnedBy(userId)), EntryOf))
  {
    SortedMapMultiset(Filter(images, OwnedBy(userId)), Newest, EntryOf);
  }

  /** Primary keys are unique. */
  ghost predicate DistinctIds(images: seq<Image>) {
    forall i, j :: 0 <= i < j < |images| ==> images[i].imageId != images[j].imageId
  }

  /** Deleting by a unique primary key removes exactly that row. */
  lemma {:induction false} DeleteByIdRemovesOne(images: seq<Image>, k: nat)
    requires DistinctIds(images) && k < |images|
    ensures Filter(images, NotImageId(images[k].imageId)) == RemoveAt(images, k)
  {
    forall j | 0 <= j < |images| && j != k ensures NotImageId(images[k].imageId)(images[j]) {
      if j < k {
        assert images[j].imageId != images[k].imageId;
      } else {
        assert images[k].imageId != images[j].imageId;
      }
    }
    FilterDropsOne(images, NotImageId(images[k].imageId), k);
    assert RemoveAt(images, k) == images[..k] + images[k + 1..];
  }

  const NotOwned := "Image not found or not owned by user"

  class ImagesService {
    var images: seq<Image>

    constructor ()
      ensures images == []
    {
      images := [];
    }

    /** `saveImage`: stores exactly one new image with the given owner, url, prompt, theme and size. */
    method SaveImage(userId: string, url: string, prompt: string, theme: Option<string>, size: Option<string>,
                     imageId: string, now: int) returns (image: Image)
      modifies this
      ensures image == Image(imageId, url, prompt, theme, size, userId, now)
      ensures images == old(images) + [image]
    {
      image := Image(imageId, url, prompt, theme, size, userId, now);
      images := images + [image];
    }

    /** `getUserImages`. */
    function GetUserImages(userId: string): (r: seq<GalleryEntry>)
      reads this
      ensures r == Gallery(images, userId)
    {
      Gallery(images, userId)
    }

    /**
     * `deleteUserImage`: an error, and no change, when the image is missing or another user's;
     * otherwise the row with that id is deleted.
     */
    method DeleteUserImage(imageId: string, userId: string) returns (r: Result<(), string>)
      modifies this
      ensures var found := Find(old(images), HasImageId(imageId));
        if found.None? || found.value.userId != userId then r == Failure(NotOwned) && images == old(images)
        else r.Success? && images == Filter(old(images), NotImageId(imageId))
      ensures r.Success? ==> forall i :: 0 <= i < |images| ==> images[i].imageId != imageId
      ensures r.Success? && old(DistinctIds(images)) ==>
                exists k :: 0 <= k < |old(images)| && old(images)[k].imageId == imageId && old(images)[k].userId == userId
                            && images == RemoveAt(old(images), k)
    {
      var found := Find(images, HasImageId(imageId));
      if found.None? || found.value.userId != userId {
        return Failure(NotOwned);
      }
      var k :| 0 <= k < |images| && images[k] == found.value;
      if DistinctIds(images) {
        DeleteByIdRemovesOne(images, k);
      }
      images := Filter(images, NotImageId(imageId));
      r := Success(());
    }
  }
}

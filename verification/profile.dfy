/** `addImage` in models/mongo/Profile.js: a profile's image list gains an image id only when
    the id is not already listed. */
module Profile {

  /** `images.includes(id) ? images : images.push(id)`, before the save. */
  function AddImage<T(==)>(images: seq<T>, id: T): (r: seq<T>)
    ensures id in r
    ensures images <= r
    ensures id in images ==> r == images
    ensures id !in images ==> |r| == |images| + 1 && r[|images|] == id
  {
    if id in images then images else images + [id]
  }

  predicate NoDuplicates<T(==)>(s: seq<T>)
  {
    forall i, j :: 0 <= i < j < |s| ==> s[i] != s[j]
  }

  /** The set of listed ids grows by exactly the new id, and no other element is touched. */
  lemma AddContents<T>(images: seq<T>, id: T)
    ensures (set x | x in AddImage(images, id)) == (set x | x in images) + {id}
    ensures images <= AddImage(images, id)
  {
  }

  /** A duplicate-free list stays duplicate-free. */
  lemma AddKeepsNoDuplicates<T>(images: seq<T>, id: T)
    requires NoDuplicates(images)
    ensures NoDuplicates(AddImage(images, id))
  {
    if id !in images {
      var r := images + [id];
      forall i, j | 0 <= i < j < |r| ensures r[i] != r[j] {
        if j == |images| {
          assert r[i] == images[i];
        }
      }
    }
  }

  /** Adding twice is adding once. */
  lemma AddIdempotent<T>(images: seq<T>, id: T)
    ensures AddImage(AddImage(images, id), id) == AddImage(images, id)
  {
  }
}

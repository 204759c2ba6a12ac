/** The author-profile image upload field: the form's `images` value, the
    upload-success handler that appends one image below the maximum, the
    removal by index, and the upload widget offered only below the maximum. */
module ImageUpload {
  import opened Common

  datatype AuthorImage = AuthorImage(url: string, id: string)

  datatype UploadInfo = UploadInfo(secureUrl: string, publicId: string)

  /** What the upload widget reports: its event name and, when present, the info. */
  datatype UploadResult = UploadResult(event: string, info: Option<UploadInfo>)

  /** `filter((_, i) => i !== index)`: the list without the element at
      `index`; an index outside the list removes nothing. */
  function DropIndex<T>(s: seq<T>, index: int): (r: seq<T>)
    ensures 0 <= index < |s| ==> r == s[..index] + s[index + 1..]
    ensures !(0 <= index < |s|) ==> r == s
  {
    if s == [] then []
    else
      var init := s[..|s| - 1];
      var rest := DropIndex(init, index);
      if |s| - 1 != index then
        assert 0 <= index < |init| ==> init[..index] + init[index + 1..] + [s[|s| - 1]] == s[..index] + s[index + 1..];
        assert init + [s[|s| - 1]] == s;
        rest + [s[|s| - 1]]
      else
        assert init == s[..index] + s[index + 1..];
        rest
  }

  class ImageField {
    /** The form's `images` value; unset reads as the empty list. */
    var images: Option<seq<AuthorImage>>
    /** `getMaxFiles('authors')`. */
    const max: nat

    constructor (max: nat, images: Option<seq<AuthorImage>>)
      ensures this.max == max && this.images == images
    {
      this.max := max;
      this.images := images;
    }

    /** `form.getValues("images") || []`. */
    function Current(): (r: seq<AuthorImage>)
      reads this
      ensures images.Some? ==> r == images.value
      ensures images.None? ==> r == []
    {
      images.GetOr([])
    }

    /** The upload widget: offered exactly when fewer than `max` images are
        held, allowing the remaining number of files, at least one. */
    function UploadWidget(): (maxFiles: Option<nat>)
      reads this
      ensures maxFiles.Some? <==> |Current()| < max
      ensures maxFiles.Some? ==> maxFiles.value >= 1 && maxFiles.value + |Current()| == max
    {
      if |Current()| < max then Some(max - |Current()|) else None
    }

    /** `handleUploadSuccess`: a failed or info-less event and a full list
        change nothing; otherwise exactly one image is appended. */
    method HandleUploadSuccess(result: UploadResult)
      modifies this
      ensures result.event != "success" || result.info.None? ==> images == old(images)
      ensures |old(Current())| >= max ==> images == old(images)
      ensures result.event == "success" && result.info.Some? && |old(Current())| < max ==>
        images == Some(old(Current()) + [AuthorImage(result.info.value.secureUrl, result.info.value.publicId)])
      ensures |old(Current())| <= max ==> |Current()| <= max
    {
      if result.event != "success" || result.info.None? {
        return;
      }
      var current := Current();
      if |current| >= max {
        return;
      }
      var info := result.info.value;
      images := Some(current + [AuthorImage(info.secureUrl, info.publicId)]);
    }

    /** `handleRemoveImage`: the list without the element at `index`. */
    method HandleRemoveImage(index: int)
      modifies this
      ensures images == Some(DropIndex(old(Current()), index))
      ensures |Current()| <= |old(Current())|
    {
      images := Some(DropIndex(Current(), index));
    }
  }
}

/**
 * The floor-plan form schema (utils/validation/floorPlanSchema.ts) as a validation
 * function: each field's checks with their messages, and the data a valid form yields.
 * A field left out of the form is `None`; widths and heights are real numbers.
 */
module FloorPlanSchema {
  import opened Wrappers
  import opened Text

  datatype FloorPlanInput = FloorPlanInput(
    name: string,
    building: Option<string>,
    floor: Option<string>,
    imageUrl: string,
    imageWidth: Option<real>,
    imageHeight: Option<real>,
    isActive: Option<bool>)

  datatype FloorPlanData = FloorPlanData(
    name: string,
    building: Option<string>,
    floor: Option<string>,
    imageUrl: string,
    imageWidth: Option<real>,
    imageHeight: Option<real>,
    isActive: bool)

  datatype Field = Name | Building | Floor | ImageUrl | ImageWidth | ImageHeight

  /** One failed check: the field and the message the form shows. */
  datatype Issue = Issue(field: Field, message: string)

  datatype Validation = Accepted(data: FloorPlanData) | Rejected(issues: seq<Issue>)

  const IMAGE_DIRECTORY: string := "/floor-plans/"

  /** The image path ends in `.png`, `.jpg` or `.jpeg`, in any letter case. */
  predicate HasImageExtension(url: string) {
    var lower := ToLower(url);
    EndsWith(lower, ".png") || EndsWith(lower, ".jpg") || EndsWith(lower, ".jpeg")
  }

  /** The checks on `name`, in order. */
  function NameIssues(name: string): (r: seq<Issue>)
    ensures r == [] <==> 1 <= |name| <= 255
    ensures |name| == 0 ==> r == [Issue(Name, "Name is required")]
    ensures |name| > 255 ==> r == [Issue(Name, "Name must be less than 255 characters")]
  {
    (if |name| < 1 then [Issue(Name, "Name is required")] else [])
    + (if |name| > 255 then [Issue(Name, "Name must be less than 255 characters")] else [])
  }

  /** An optional text of at most `limit` characters; the empty string is allowed. */
  function OptionalTextIssues(value: Option<string>, limit: nat, field: Field, message: string): (r: seq<Issue>)
    ensures r == [] <==> value.None? || |value.value| <= limit
    ensures r != [] ==> r == [Issue(field, message)]
  {
    if value.Some? && |value.value| > limit then [Issue(field, message)] else []
  }

  /** The checks on `image_url`, in order: length, directory, extension. */
  function ImageUrlIssues(url: string): (r: seq<Issue>)
    ensures r == [] <==> 1 <= |url| <= 500 && StartsWith(url, IMAGE_DIRECTORY) && HasImageExtension(url)
    ensures !StartsWith(url, IMAGE_DIRECTORY) ==> Issue(ImageUrl, "Image path must start with /floor-plans/") in r
    ensures !HasImageExtension(url) ==> Issue(ImageUrl, "Image must be PNG or JPG format") in r
  {
    (if |url| < 1 then [Issue(ImageUrl, "Image path is required")] else [])
    + (if |url| > 500 then [Issue(ImageUrl, "Image path must be less than 500 characters")] else [])
    + (if !StartsWith(url, IMAGE_DIRECTORY) then [Issue(ImageUrl, "Image path must start with /floor-plans/")] else [])
    + (if !HasImageExtension(url) then [Issue(ImageUrl, "Image must be PNG or JPG format")] else [])
  }

  /** An optional number that must be positive when given. */
  function PositiveIssues(value: Option<real>, field: Field, message: string): (r: seq<Issue>)
    ensures r == [] <==> value.None? || value.value > 0.0
  {
    if value.Some? && value.value <= 0.0 then [Issue(field, message)] else []
  }

  /** Every failed check of the form, field by field. */
  function Issues(input: FloorPlanInput): seq<Issue> {
    NameIssues(input.name)
    + OptionalTextIssues(input.building, 100, Building, "Building must be less than 100 characters")
    + OptionalTextIssues(input.floor, 50, Floor, "Floor must be less than 50 characters")
    + ImageUrlIssues(input.imageUrl)
    + PositiveIssues(input.imageWidth, ImageWidth, "Image width must be a positive number")
    + PositiveIssues(input.imageHeight, ImageHeight, "Image height must be a positive number")
  }

  /** The form is valid exactly when every field passes its checks. */
  predicate IsValid(input: FloorPlanInput) {
    && 1 <= |input.name| <= 255
    && (input.building.None? || |input.building.value| <= 100)
    && (input.floor.None? || |input.floor.value| <= 50)
    && 1 <= |input.imageUrl| <= 500
    && StartsWith(input.imageUrl, IMAGE_DIRECTORY)
    && HasImageExtension(input.imageUrl)
    && (input.imageWidth.None? || input.imageWidth.value > 0.0)
    && (input.imageHeight.None? || input.imageHeight.value > 0.0)
  }

  /** The form has no failed check exactly when it is valid. */
  lemma {:induction false} NoIssuesIffValid(input: FloorPlanInput)
    ensures Issues(input) == [] <==> IsValid(input)
  {
    var name := NameIssues(input.name);
    var building := OptionalTextIssues(input.building, 100, Building, "Building must be less than 100 characters");
    var floor := OptionalTextIssues(input.floor, 50, Floor, "Floor must be less than 50 characters");
    var url := ImageUrlIssues(input.imageUrl);
    var width := PositiveIssues(input.imageWidth, ImageWidth, "Image width must be a positive number");
    var height := PositiveIssues(input.imageHeight, ImageHeight, "Image height must be a positive number");
    assert Issues(input) == name + building + floor + url + width + height;
    assert |Issues(input)| == |name| + |building| + |floor| + |url| + |width| + |height|;
  }

  /** `floorPlanSchema.safeParse`: the parsed data when every check passes (the name
      trimmed, `is_active` defaulting to true, everything else as given), otherwise the
      failed checks. */
  function Validate(input: FloorPlanInput): (r: Validation)
    ensures r.Accepted? <==> IsValid(input)
    ensures r.Rejected? ==> r.issues != []
    ensures r.Accepted? ==>
      && r.data.name == Trim(input.name)
      && r.data.building == input.building && r.data.floor == input.floor
      && r.data.imageUrl == input.imageUrl
      && r.data.imageWidth == input.imageWidth && r.data.imageHeight == input.imageHeight
      && r.data.isActive == input.isActive.GetOr(true)
  {
    var issues := Issues(input);
    NoIssuesIffValid(input);
    if issues == [] then
      Accepted(FloorPlanData(Trim(input.name), input.building, input.floor, input.imageUrl,
        input.imageWidth, input.imageHeight, input.isActive.GetOr(true)))
    else Rejected(issues)
  }

  /** The extension check ignores letter case. */
  lemma {:induction false} ExtensionIgnoresCase(url: string)
    ensures HasImageExtension(ToLower(url)) <==> HasImageExtension(url)
  {
    ToLowerIdempotent(url);
  }

  /** The directory prefix and the extension cannot overlap: an accepted path is at least
      as long as the directory name plus ".png". */
  lemma {:induction false} ShortestImagePath(url: string)
    requires StartsWith(url, IMAGE_DIRECTORY) && HasImageExtension(url)
    ensures |url| >= |IMAGE_DIRECTORY| + 4
  {
    var lower := ToLower(url);
    var extLen := if EndsWith(lower, ".png") || EndsWith(lower, ".jpg") then 4 else 5;
    var dot := |url| - extLen;
    assert lower[dot] == '.';
    assert url[dot] == '.';
    assert forall i :: 0 <= i < |IMAGE_DIRECTORY| ==> IMAGE_DIRECTORY[i] != '.';
    assert forall i :: 0 <= i < |IMAGE_DIRECTORY| ==> url[i] == IMAGE_DIRECTORY[i];
  }
}

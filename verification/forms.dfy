/** The two model forms of the posts app as pure validation functions.

    A form is built from `request.POST or None`: a request without form
    data gives an unbound form, which is never valid and carries no errors.
    A bound form either fails with the set of fields in error, or yields
    the cleaned values of exactly the fields it declares; the caller then
    attaches the fields the form does not own (author, post, timestamps)
    before saving. Text fields follow the defaults of Django's form
    `CharField` for a required model `TextField`: surrounding whitespace
    is stripped, an empty result is refused, and so is a null character. */
module Forms {
  import opened Wrappers
  import opened Models

  datatype FieldName = TextField | GroupField

  /** The raw post form fields. `group` is the submitted choice (`None`
      for the empty choice); `image` is the uploaded file, if any. */
  datatype PostData = PostData(text: string, group: Option<int>, image: Option<ImageRef>)

  datatype CommentData = CommentData(text: string)

  /** The values a valid post form writes into a post. */
  datatype PostFields = PostFields(text: string, group: Option<GroupId>, image: Option<ImageRef>)

  datatype FormState<T> = Unbound | Invalid(errors: set<FieldName>) | Cleaned(fields: T)

  // ---------------------------------------------------------------------
  // Text cleaning

  /** Python's `str.isspace`: the characters `str.strip()` removes. */
  predicate IsSpace(c: char) {
    || ('\t' <= c <= '\r')
    || ('\U{1C}' <= c <= '\U{1F}')
    || c == ' ' || c == '\U{85}' || c == '\U{A0}' || c == '\U{1680}'
    || ('\U{2000}' <= c <= '\U{200A}')
    || c == '\U{2028}' || c == '\U{2029}' || c == '\U{202F}' || c == '\U{205F}' || c == '\U{3000}'
  }

  predicate Blank(s: string) {
    forall i :: 0 <= i < |s| ==> IsSpace(s[i])
  }

  /** The position of the first non-whitespace character of `s` at or
      after `k`, or `|s|` when there is none. */
  function SkipSpace(s: string, k: nat): (i: nat)
    requires k <= |s|
    ensures k <= i <= |s|
    ensures forall j :: k <= j < i ==> IsSpace(s[j])
    ensures i < |s| ==> !IsSpace(s[i])
    decreases |s| - k
  {
    if k < |s| && IsSpace(s[k]) then SkipSpace(s, k + 1) else k
  }

  /** The end of `s[..j]` once its trailing whitespace, down to `lo`, is
      dropped. */
  function SkipSpaceBack(s: string, lo: nat, j: nat): (e: nat)
    requires lo <= j <= |s|
    ensures lo <= e <= j
    ensures forall k :: e <= k < j ==> IsSpace(s[k])
    ensures e > lo ==> !IsSpace(s[e - 1])
    decreases j
  {
    if j > lo && IsSpace(s[j - 1]) then SkipSpaceBack(s, lo, j - 1) else j
  }

  /** How many leading characters `str.strip()` removes. */
  function StripStart(s: string): (i: nat)
    ensures i <= |s|
    ensures forall k :: 0 <= k < i ==> IsSpace(s[k])
    ensures i < |s| ==> !IsSpace(s[i])
  {
    SkipSpace(s, 0)
  }

  /** Where the text `str.strip()` keeps ends: every character from here on
      is whitespace, and so is everything before `StripStart(s)` when the
      two meet. */
  function StripEnd(s: string): (e: nat)
    ensures StripStart(s) <= e <= |s|
    ensures forall k :: e <= k < |s| ==> IsSpace(s[k])
    ensures e > StripStart(s) ==> !IsSpace(s[e - 1])
  {
    SkipSpaceBack(s, StripStart(s), |s|)
  }

  /** Python's `str.strip()`: the longest infix of `s` that neither starts
      nor ends with whitespace, everything around it being whitespace. */
  function Strip(s: string): (r: string)
    ensures StripStart(s) + |r| <= |s| && r == s[StripStart(s)..StripStart(s) + |r|]
    ensures forall k :: 0 <= k < StripStart(s) ==> IsSpace(s[k])
    ensures forall k :: StripStart(s) + |r| <= k < |s| ==> IsSpace(s[k])
    ensures |r| > 0 ==> !IsSpace(r[0]) && !IsSpace(r[|r| - 1])
  {
    s[StripStart(s)..StripEnd(s)]
  }

  /** Stripping twice is stripping once. */
  lemma StripIdempotent(s: string)
    ensures Strip(Strip(s)) == Strip(s)
  {
    var r := Strip(s);
    if |r| > 0 {
      assert StripStart(r) == 0;
      assert StripEnd(r) == |r|;
    }
  }

  /** Stripping leaves nothing exactly when the text is all whitespace. */
  lemma StripEmptyIffBlank(s: string)
    ensures Strip(s) == [] <==> Blank(s)
  {
    var r := Strip(s);
    var i := StripStart(s);
    if r != [] {
      assert s[i] == r[0];
    }
  }

  /** Stripping removes only whitespace, so a null character survives it. */
  lemma StripKeepsNull(s: string)
    ensures '\0' in Strip(s) <==> '\0' in s
  {
    var r := Strip(s);
    var i := StripStart(s);
    var j := i + |r|;
    if '\0' in s {
      var k :| 0 <= k < |s| && s[k] == '\0';
      if i <= k < j {
        assert r[k - i] == s[k];
      }
    }
  }

  /** The required text field of both forms: the stripped text, or `None`
      when the field is in error. */
  function CleanText(raw: string): (r: Option<string>)
    ensures r.None? <==> Blank(raw) || '\0' in raw
    ensures r.Some? ==> r.value == Strip(raw) && |r.value| > 0
  {
    StripEmptyIffBlank(raw);
    StripKeepsNull(raw);
    var t := Strip(raw);
    if t == [] || '\0' in t then None else Some(t)
  }

  // ---------------------------------------------------------------------
  // PostForm

  /** The group choice accepts the empty choice or the id of an existing group. */
  predicate GroupChoiceOk(groups: seq<Group>, choice: Option<int>) {
    choice.None? || (choice.value >= 0 && choice.value as nat in GroupIds(groups))
  }

  /** `PostForm(data)`: text is required, group and image may be left empty. */
  function ValidatePost(groups: seq<Group>, data: Option<PostData>): (r: FormState<PostFields>)
    ensures data.None? <==> r.Unbound?
    ensures r.Invalid? ==> r.errors != {}
    ensures r.Invalid? ==> (TextField in r.errors <==> Blank(data.value.text) || '\0' in data.value.text)
    ensures r.Invalid? ==> (GroupField in r.errors <==> !GroupChoiceOk(groups, data.value.group))
    ensures data.Some? && r.Cleaned? <==>
      data.Some? && !Blank(data.value.text) && '\0' !in data.value.text && GroupChoiceOk(groups, data.value.group)
    ensures r.Cleaned? ==> r.fields.text == Strip(data.value.text) && |r.fields.text| > 0
    ensures r.Cleaned? ==> (r.fields.group.Some? <==> data.value.group.Some?)
    ensures r.Cleaned? && r.fields.group.Some? ==>
      r.fields.group.value == data.value.group.value && r.fields.group.value in GroupIds(groups)
    ensures r.Cleaned? ==> r.fields.image == data.value.image
  {
    match data
    case None => Unbound
    case Some(d) =>
      var text := CleanText(d.text);
      var groupOk := GroupChoiceOk(groups, d.group);
      if text.Some? && groupOk then
        var group := if d.group.Some? then Some(d.group.value as nat) else None;
        Cleaned(PostFields(text.value, group, d.image))
      else
        Invalid((if text.None? then {TextField} else {}) + (if groupOk then {} else {GroupField}))
  }

  /** Saving the form into `instance`: only `text`, `group` and `image`
      are written; a missing upload keeps the image already stored. */
  function ApplyPostForm(instance: Post, f: PostFields): (p: Post)
    ensures p.id == instance.id && p.author == instance.author && p.pubDate == instance.pubDate
    ensures p.text == f.text && p.group == f.group
    ensures p.image == (if f.image.Some? then f.image else instance.image)
  {
    instance.(text := f.text, group := f.group, image := if f.image.Some? then f.image else instance.image)
  }

  // ---------------------------------------------------------------------
  // CommentForm

  /** `CommentForm(data)`: the only field is the required text. */
  function ValidateComment(data: Option<CommentData>): (r: FormState<string>)
    ensures data.None? <==> r.Unbound?
    ensures r.Invalid? ==> r.errors == {TextField}
    ensures data.Some? && r.Cleaned? <==> data.Some? && !Blank(data.value.text) && '\0' !in data.value.text
    ensures r.Cleaned? ==> r.fields == Strip(data.value.text) && |r.fields| > 0
  {
    match data
    case None => Unbound
    case Some(d) =>
      var text := CleanText(d.text);
      if text.Some? then Cleaned(text.value) else Invalid({TextField})
  }
}

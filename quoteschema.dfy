/** The quote validation schemas as predicates over already-typed inputs: the
    create form, the create API payload that extends it, and the all-optional
    update schema with its slug pattern `^[a-z0-9]+(?:-[a-z0-9]+)*$`. */
module QuoteSchema {
  import opened Common

  // ---------------------------------------------------------------------
  // The slug pattern

  predicate IsSlugChar(c: char) {
    ('a' <= c <= 'z') || ('0' <= c <= '9')
  }

  /** The length of the longest prefix matching `[a-z0-9]*` (greedy `+` run). */
  function RunLength(s: string): (n: nat)
    ensures n <= |s|
    ensures forall k :: 0 <= k < n ==> IsSlugChar(s[k])
    ensures n < |s| ==> !IsSlugChar(s[n])
  {
    if s != [] && IsSlugChar(s[0]) then 1 + RunLength(s[1..]) else 0
  }

  /** `(?:-[a-z0-9]+)*$`: zero or more groups, each a dash and a run. Because
      a group starts with `-`, the greedy run never needs backtracking. */
  predicate MatchGroups(s: string)
    decreases |s|
  {
    s == [] || (s[0] == '-' && RunLength(s[1..]) >= 1 && MatchGroups(s[1 + RunLength(s[1..])..]))
  }

  /** `^[a-z0-9]+(?:-[a-z0-9]+)*$`, following the pattern's structure. */
  predicate MatchesSlugPattern(s: string) {
    RunLength(s) >= 1 && MatchGroups(s[RunLength(s)..])
  }

  /** The slug shape in plain words: non-empty, only lowercase letters,
      digits and dashes, no leading or trailing dash and no two dashes in a row. */
  predicate SlugShape(s: string) {
    && |s| >= 1
    && (forall k :: 0 <= k < |s| ==> IsSlugChar(s[k]) || s[k] == '-')
    && s[0] != '-' && s[|s| - 1] != '-'
    && (forall k :: 0 <= k < |s| - 1 ==> NoDashPairAt(s, k))
  }

  /** The characters at `k` and `k + 1` are not both dashes. */
  predicate NoDashPairAt(s: string, k: int)
    requires 0 <= k < |s| - 1
  {
    !(s[k] == '-' && s[k + 1] == '-')
  }

  /** The groups part, in plain words: empty, or a dash-led tail of the shape. */
  predicate GroupsShape(s: string) {
    s == [] || (s[0] == '-' && SlugShape(s[1..]))
  }

  /** A run followed by dash-led groups of the shape has the slug shape. */
  lemma GroupsShapeToSlug(t: string)
    requires RunLength(t) >= 1 && GroupsShape(t[RunLength(t)..])
    ensures SlugShape(t)
  {
    var n := RunLength(t);
    var u := t[n..];
    if u != [] {
      var v := u[1..];
      assert t[n] == '-';
      assert forall k :: n < k < |t| ==> t[k] == v[k - n - 1];
      assert forall k :: 0 <= k < |t| ==> IsSlugChar(t[k]) || t[k] == '-' by {
        forall k | 0 <= k < |t| ensures IsSlugChar(t[k]) || t[k] == '-' {
          if k > n { assert t[k] == v[k - n - 1]; }
        }
      }
      assert t[|t| - 1] == v[|v| - 1];
      forall k | 0 <= k < |t| - 1 ensures NoDashPairAt(t, k) {
        if k == n { assert t[k + 1] == v[0]; }
        else if k > n {
          assert NoDashPairAt(v, k - n - 1);
          assert t[k] == v[k - n - 1] && t[k + 1] == v[k - n];
        }
      }
    }
  }

  /** A string of the slug shape is a run followed by dash-led groups of the shape. */
  lemma SlugToGroupsShape(t: string)
    requires SlugShape(t)
    ensures RunLength(t) >= 1 && GroupsShape(t[RunLength(t)..])
  {
    var n := RunLength(t);
    var u := t[n..];
    if u != [] {
      assert u[0] == t[n] == '-';
      assert n + 1 < |t|;
      var v := u[1..];
      assert forall k :: 0 <= k < |v| ==> v[k] == t[n + 1 + k];
      assert NoDashPairAt(t, n);
      assert v[0] != '-';
      assert v[|v| - 1] == t[|t| - 1];
      forall k | 0 <= k < |v| - 1 ensures NoDashPairAt(v, k) {
        assert NoDashPairAt(t, n + 1 + k);
        assert v[k] == t[n + 1 + k] && v[k + 1] == t[n + 1 + k + 1];
      }
    }
  }

  /** After a non-empty run, the rest is dash-led groups of the shape exactly
      when the whole string has the slug shape. */
  lemma RunThenGroups(t: string)
    requires RunLength(t) >= 1
    ensures SlugShape(t) <==> GroupsShape(t[RunLength(t)..])
  {
    if GroupsShape(t[RunLength(t)..]) { GroupsShapeToSlug(t); }
    if SlugShape(t) { SlugToGroupsShape(t); }
  }

  lemma {:induction false} MatchGroupsShape(s: string)
    ensures MatchGroups(s) <==> GroupsShape(s)
    decreases |s|
  {
    if s != [] && s[0] == '-' {
      var t := s[1..];
      var n := RunLength(t);
      if n >= 1 {
        var u := t[n..];
        assert s[1 + n..] == u;
        assert MatchGroups(s) == MatchGroups(u);
        MatchGroupsShape(u);
        RunThenGroups(t);
      } else {
        assert !MatchGroups(s);
        assert !SlugShape(t) by {
          if |t| >= 1 { assert !IsSlugChar(t[0]); }
        }
      }
    }
  }

  /** The pattern accepts exactly the strings of the slug shape. */
  lemma SlugPatternIff(s: string)
    ensures MatchesSlugPattern(s) <==> SlugShape(s)
  {
    var n := RunLength(s);
    MatchGroupsShape(s[n..]);
    if n >= 1 { RunThenGroups(s); }
  }

  // ---------------------------------------------------------------------
  // The schemas

  /** `z.string().min(1).max(1500)`, the content rule of both schemas. */
  predicate ContentInBounds(content: string) {
    1 <= |content| <= 1500
  }

  /** `createQuoteFormSchema`'s input. `backgroundImage` is absent, null or a string. */
  datatype CreateQuoteForm = CreateQuoteForm(
    content: string,
    categoryId: string,
    authorProfileId: string,
    slug: Option<string>,
    backgroundImage: Option<Option<string>>,
    featured: Option<bool>)

  predicate ValidCreateForm(f: CreateQuoteForm) {
    ContentInBounds(f.content) && |f.categoryId| >= 1 && |f.authorProfileId| >= 1
  }

  /** One `gallery.create` entry of the API payload. */
  datatype GalleryImageRef = GalleryImageRef(galleryId: string, isActive: Option<bool>, isBackground: Option<bool>)

  /** `createQuoteAPISchema`'s input: the form fields plus optional tag ids to
      connect and gallery links to create. */
  datatype CreateQuoteApiInput = CreateQuoteApiInput(
    form: CreateQuoteForm,
    tagsConnect: Option<seq<string>>,
    galleryCreate: Option<seq<GalleryImageRef>>)

  predicate ValidCreateApi(i: CreateQuoteApiInput) {
    ValidCreateForm(i.form)
  }

  /** The parsed `featured` field: false when omitted. */
  function FeaturedOf(f: CreateQuoteForm): (b: bool)
    ensures f.featured.None? ==> !b
    ensures f.featured.Some? ==> b == f.featured.value
  {
    f.featured.GetOr(false)
  }

  /** One `galleryImages` entry of an update. */
  datatype GalleryImageState = GalleryImageState(id: string, isActive: bool, isBackground: bool)

  /** `updateQuoteSchema`'s input: every field may be absent. */
  datatype UpdateQuoteInput = UpdateQuoteInput(
    content: Option<string>,
    slug: Option<string>,
    categoryId: Option<string>,
    authorProfileId: Option<string>,
    featured: Option<bool>,
    backgroundImage: Option<Option<string>>,
    galleryImages: Option<seq<GalleryImageState>>,
    tagsConnect: Option<Option<seq<string>>>,
    tagsDisconnect: Option<Option<seq<string>>>)

  const EmptyUpdate := UpdateQuoteInput(None, None, None, None, None, None, None, None, None)

  /** `updateQuoteSchema`; `isUrl` is the URL check of `z.string().url()`. */
  predicate ValidUpdate(u: UpdateQuoteInput, isUrl: string -> bool) {
    && (u.content.Some? ==> ContentInBounds(u.content.value))
    && (u.slug.Some? ==> |u.slug.value| >= 1 && MatchesSlugPattern(u.slug.value))
    && (u.categoryId.Some? ==> |u.categoryId.value| >= 1)
    && (u.authorProfileId.Some? ==> |u.authorProfileId.value| >= 1)
    && (u.backgroundImage.Some? && u.backgroundImage.value.Some? ==> isUrl(u.backgroundImage.value.value))
  }

  /** An update's slug, when present, is a well-shaped slug. */
  lemma UpdateSlugShape(u: UpdateQuoteInput, isUrl: string -> bool)
    requires ValidUpdate(u, isUrl)
    requires u.slug.Some?
    ensures SlugShape(u.slug.value)
  {
    SlugPatternIff(u.slug.value);
  }
}

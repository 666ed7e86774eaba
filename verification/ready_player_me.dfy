/**
 * Ready Player Me helpers: building the download URL of an avatar model,
 * the avatar-creator URL, recognising avatar ids and pulling an id back
 * out of a URL. Query strings are lists of name/value pairs joined as
 * `URLSearchParams` serialises them.
 */
module ReadyPlayerMe {
  import opened Wrappers
  import opened Strings

  const ModelsBase := "https://models.readyplayer.me"
  const DefaultApiUrl := "https://api.readyplayer.me/v1"

  // ---------------------------------------------------------------------------
  // Avatar ids
  // ---------------------------------------------------------------------------

  /** A hexadecimal digit in either case. */
  predicate IsHex(c: char) {
    '0' <= c <= '9' || 'a' <= c <= 'f' || 'A' <= c <= 'F'
  }

  /** An avatar id: exactly 24 hexadecimal digits, case-insensitive. */
  predicate IsValidAvatarId(s: string) {
    |s| == 24 && forall i :: 0 <= i < |s| ==> IsHex(s[i])
  }

  /** The documented example id is valid in either case; one digit short, or one non-hex letter, is not. */
  lemma ValidAvatarIdExamples()
    ensures IsValidAvatarId("64f7a8b9c8e4f1234567890a")
    ensures IsValidAvatarId("64F7A8B9C8E4F1234567890A")
    ensures !IsValidAvatarId("64f7a8b9c8e4f1234567890")
    ensures !IsValidAvatarId("64f7a8b9c8e4f1234567890g")
  {
    assert !IsHex("64f7a8b9c8e4f1234567890g"[23]);
  }

  // ---------------------------------------------------------------------------
  // Query strings
  // ---------------------------------------------------------------------------

  /** The query parameter names used by the two URL builders. */
  datatype Key =
    | QualityKey | PoseKey | TextureAtlasKey | TextureSizeLimitKey | LodKey
    | ClearCacheKey | BodyTypeKey | QuickStartKey | FrameTitleKey | FrameRedirectUrlKey | FrameIconKey

  function KeyText(k: Key): string {
    match k
    case QualityKey => "quality"
    case PoseKey => "pose"
    case TextureAtlasKey => "textureAtlas"
    case TextureSizeLimitKey => "textureSizeLimit"
    case LodKey => "lod"
    case ClearCacheKey => "clearCache"
    case BodyTypeKey => "bodyType"
    case QuickStartKey => "quickStart"
    case FrameTitleKey => "frameTitle"
    case FrameRedirectUrlKey => "frameRedirectUrl"
    case FrameIconKey => "frameIcon"
  }

  const MaxRank := 10

  /** The order in which each builder appends its parameters. */
  function KeyRank(k: Key): (r: nat)
    ensures r <= MaxRank
  {
    match k
    case QualityKey => 0
    case PoseKey => 1
    case TextureAtlasKey => 2
    case TextureSizeLimitKey => 3
    case LodKey => 4
    case ClearCacheKey => 5
    case BodyTypeKey => 6
    case QuickStartKey => 7
    case FrameTitleKey => 8
    case FrameRedirectUrlKey => 9
    case FrameIconKey => 10
  }

  datatype Param = Param(key: Key, value: string)

  /** `name=value` pairs joined with `&`. */
  function QueryString(ps: seq<Param>): (q: string)
    ensures q == [] <==> ps == []
  {
    if ps == [] then []
    else KeyText(ps[0].key) + "=" + ps[0].value + (if |ps| == 1 then "" else "&" + QueryString(ps[1..]))
  }

  /** A URL with its query string, which is left off entirely when there are no parameters. */
  function WithQuery(base: string, ps: seq<Param>): string {
    if ps == [] then base else base + "?" + QueryString(ps)
  }

  /** The value of the first parameter with this name. */
  function Lookup(ps: seq<Param>, key: Key): Option<string> {
    if ps == [] then None
    else if ps[0].key == key then Some(ps[0].value)
    else Lookup(ps[1..], key)
  }

  lemma {:induction false} LookupAppend(a: seq<Param>, b: seq<Param>, key: Key)
    ensures Lookup(a + b, key) == if Lookup(a, key).Some? then Lookup(a, key) else Lookup(b, key)
  {
    if a != [] {
      assert (a + b)[0] == a[0];
      assert (a + b)[1..] == a[1..] + b;
      LookupAppend(a[1..], b, key);
    } else {
      assert a + b == b;
    }
  }

  /** A parameter a builder may append: its key, and its value when it is to be appended. */
  datatype Candidate = Candidate(key: Key, value: Option<string>)

  /** The candidates that have a value, in their order, as parameters. */
  function Present(cs: seq<Candidate>): (ps: seq<Param>)
    ensures |ps| <= |cs|
  {
    if cs == [] then []
    else (if cs[0].value.Some? then [Param(cs[0].key, cs[0].value.value)] else []) + Present(cs[1..])
  }

  /** The parameter names are listed in strictly increasing rank. */
  predicate Ranked(ps: seq<Param>) {
    forall i, j :: 0 <= i < j < |ps| ==> KeyRank(ps[i].key) < KeyRank(ps[j].key)
  }

  predicate CandidatesRanked(cs: seq<Candidate>) {
    forall i, j :: 0 <= i < j < |cs| ==> KeyRank(cs[i].key) < KeyRank(cs[j].key)
  }

  /** Every parameter's rank lies in [lo, hi]. */
  predicate RanksWithin(ps: seq<Param>, lo: int, hi: int) {
    forall i :: 0 <= i < |ps| ==> lo <= KeyRank(ps[i].key) <= hi
  }

  predicate CandidatesWithin(cs: seq<Candidate>, lo: int, hi: int) {
    forall i :: 0 <= i < |cs| ==> lo <= KeyRank(cs[i].key) <= hi
  }

  /** Keeping some of the candidates keeps their ranks. */
  lemma {:induction false} PresentWithin(cs: seq<Candidate>, lo: int, hi: int)
    requires CandidatesWithin(cs, lo, hi)
    ensures RanksWithin(Present(cs), lo, hi)
  {
    if cs != [] {
      PresentWithin(cs[1..], lo, hi);
      assert CandidatesWithin(cs[1..], lo, hi) by {
        forall i | 0 <= i < |cs[1..]|
          ensures lo <= KeyRank(cs[1..][i].key) <= hi
        {
          assert cs[1..][i] == cs[i + 1];
        }
      }
    }
  }

  /** Keeping some of the candidates keeps them in order. */
  lemma {:induction false} PresentRanked(cs: seq<Candidate>)
    requires CandidatesRanked(cs)
    ensures Ranked(Present(cs))
  {
    if cs != [] {
      var rest := cs[1..];
      assert CandidatesRanked(rest) by {
        forall i, j | 0 <= i < j < |rest|
          ensures KeyRank(rest[i].key) < KeyRank(rest[j].key)
        {
          assert rest[i] == cs[i + 1] && rest[j] == cs[j + 1];
        }
      }
      PresentRanked(rest);
      assert CandidatesWithin(rest, KeyRank(cs[0].key) + 1, MaxRank) by {
        forall i | 0 <= i < |rest|
          ensures KeyRank(cs[0].key) + 1 <= KeyRank(rest[i].key) <= MaxRank
        {
          assert rest[i] == cs[i + 1];
        }
      }
      PresentWithin(rest, KeyRank(cs[0].key) + 1, MaxRank);
      var head := if cs[0].value.Some? then [Param(cs[0].key, cs[0].value.value)] else [];
      var ps := Present(cs);
      assert ps == head + Present(rest);
      forall i, j | 0 <= i < j < |ps|
        ensures KeyRank(ps[i].key) < KeyRank(ps[j].key)
      {
        if i < |head| {
          assert ps[j] == Present(rest)[j - |head|];
        } else {
          assert ps[i] == Present(rest)[i - |head|] && ps[j] == Present(rest)[j - |head|];
        }
      }
    }
  }

  /** A name no parameter carries is looked up as absent. */
  lemma LookupMissing(ps: seq<Param>, key: Key)
    requires forall i :: 0 <= i < |ps| ==> ps[i].key != key
    ensures Lookup(ps, key) == None
  {
  }

  /** With the candidates in order, looking up a candidate's key gives its value, or nothing when it has none. */
  lemma {:induction false} PresentLookup(cs: seq<Candidate>, j: nat)
    requires CandidatesRanked(cs) && j < |cs|
    ensures Lookup(Present(cs), cs[j].key) == cs[j].value
  {
    var rest := cs[1..];
    var head := if cs[0].value.Some? then [Param(cs[0].key, cs[0].value.value)] else [];
    assert Present(cs) == head + Present(rest);
    LookupAppend(head, Present(rest), cs[j].key);
    assert CandidatesRanked(rest) by {
      forall i, k | 0 <= i < k < |rest|
        ensures KeyRank(rest[i].key) < KeyRank(rest[k].key)
      {
        assert rest[i] == cs[i + 1] && rest[k] == cs[k + 1];
      }
    }
    if j == 0 {
      if cs[0].value.None? {
        assert CandidatesWithin(rest, KeyRank(cs[0].key) + 1, MaxRank) by {
          forall i | 0 <= i < |rest|
            ensures KeyRank(cs[0].key) + 1 <= KeyRank(rest[i].key) <= MaxRank
          {
            assert rest[i] == cs[i + 1];
          }
        }
        PresentWithin(rest, KeyRank(cs[0].key) + 1, MaxRank);
        LookupMissing(Present(rest), cs[0].key);
      }
    } else {
      assert rest[j - 1] == cs[j];
      PresentLookup(rest, j - 1);
    }
  }

  /** Nothing is appended exactly when no candidate has a value. */
  lemma {:induction false} PresentEmpty(cs: seq<Candidate>)
    ensures Present(cs) == [] <==> forall j :: 0 <= j < |cs| ==> cs[j].value.None?
  {
    if cs != [] {
      PresentEmpty(cs[1..]);
      assert forall j :: 1 <= j < |cs| ==> cs[1..][j - 1] == cs[j];
    }
  }

  // ---------------------------------------------------------------------------
  // Avatar model URL
  // ---------------------------------------------------------------------------

  datatype Quality = Low | Medium | High
  datatype Pose = TPose | APose | FPose
  datatype TextureAtlas = AtlasNone | Atlas1024 | Atlas2048 | Atlas4096

  function QualityText(q: Quality): string {
    match q
    case Low => "low"
    case Medium => "medium"
    case High => "high"
  }

  function PoseText(p: Pose): string {
    match p
    case TPose => "T"
    case APose => "A"
    case FPose => "F"
  }

  function AtlasText(a: TextureAtlas): string {
    match a
    case AtlasNone => "none"
    case Atlas1024 => "1024"
    case Atlas2048 => "2048"
    case Atlas4096 => "4096"
  }

  /** The options of a model download; an absent option is `None`. */
  datatype AvatarOptions = AvatarOptions(
    quality: Option<Quality>,
    pose: Option<Pose>,
    textureAtlas: Option<TextureAtlas>,
    textureSizeLimit: Option<int>,
    lod: Option<int>)

  const NoAvatarOptions := AvatarOptions(None, None, None, None, None)

  /** Options that add nothing to the query: a texture size limit of 0 is falsy and dropped, while a level of detail 0 is kept. */
  predicate AddsNoQuery(o: AvatarOptions) {
    && o.quality.None? && o.pose.None? && o.textureAtlas.None? && o.lod.None?
    && (o.textureSizeLimit.None? || o.textureSizeLimit.value == 0)
  }

  /** A texture size limit is appended only when it is truthy, that is, present and non-zero. */
  function LimitText(limit: Option<int>): Option<string> {
    if limit.Some? && limit.value != 0 then Some(IntToString(limit.value)) else None
  }

  /** A level of detail is appended whenever it is given, 0 included. */
  function LodText(lod: Option<int>): Option<string> {
    if lod.Some? then Some(IntToString(lod.value)) else None
  }

  /** The download options in the order they are appended, each with its text when it is to be appended. */
  function AvatarCandidates(o: AvatarOptions): seq<Candidate> {
    [ Candidate(QualityKey, o.quality.Map(QualityText)),
      Candidate(PoseKey, o.pose.Map(PoseText)),
      Candidate(TextureAtlasKey, o.textureAtlas.Map(AtlasText)),
      Candidate(TextureSizeLimitKey, LimitText(o.textureSizeLimit)),
      Candidate(LodKey, LodText(o.lod)) ]
  }

  /** The query parameters of a model download. */
  function AvatarParams(o: AvatarOptions): (ps: seq<Param>)
    ensures |ps| <= 5
  {
    Present(AvatarCandidates(o))
  }

  /** The download parameters come in the order quality, pose, textureAtlas, textureSizeLimit, lod, and only those appear. */
  lemma AvatarParamsRanked(o: AvatarOptions)
    ensures Ranked(AvatarParams(o))
    ensures RanksWithin(AvatarParams(o), 0, 4)
  {
    PresentRanked(AvatarCandidates(o));
    PresentWithin(AvatarCandidates(o), 0, 4);
  }

  /**
   * Each option appears with its text exactly when given, except that a
   * texture size limit of 0 is dropped; a level of detail 0 is kept.
   */
  lemma AvatarParamsLookup(o: AvatarOptions)
    ensures Lookup(AvatarParams(o), QualityKey) == o.quality.Map(QualityText)
    ensures Lookup(AvatarParams(o), PoseKey) == o.pose.Map(PoseText)
    ensures Lookup(AvatarParams(o), TextureAtlasKey) == o.textureAtlas.Map(AtlasText)
    ensures Lookup(AvatarParams(o), TextureSizeLimitKey) ==
      if o.textureSizeLimit.Some? && o.textureSizeLimit.value != 0 then Some(IntToString(o.textureSizeLimit.value)) else None
    ensures Lookup(AvatarParams(o), LodKey) == if o.lod.Some? then Some(IntToString(o.lod.value)) else None
  {
    var cs := AvatarCandidates(o);
    PresentLookup(cs, 0);
    PresentLookup(cs, 1);
    PresentLookup(cs, 2);
    PresentLookup(cs, 3);
    PresentLookup(cs, 4);
  }

  /** No parameters at all exactly when no option adds one. */
  lemma AvatarParamsEmpty(o: AvatarOptions)
    ensures AvatarParams(o) == [] <==> AddsNoQuery(o)
  {
    var cs := AvatarCandidates(o);
    PresentEmpty(cs);
    if AvatarParams(o) == [] {
      assert cs[0].value.None? && cs[1].value.None? && cs[2].value.None? && cs[3].value.None? && cs[4].value.None?;
    }
  }

  /** The length of `https://models.readyplayer.me/<id>.glb`. */
  function ModelPathLength(avatarId: string): nat {
    |ModelsBase| + |avatarId| + 5
  }

  /** `https://models.readyplayer.me/<id>.glb`, followed by `?` and the query only when some option adds to it. */
  function GetAvatarUrl(avatarId: string, o: AvatarOptions): (url: string)
    ensures |url| >= ModelPathLength(avatarId)
    ensures url[..ModelPathLength(avatarId)] == ModelsBase + "/" + avatarId + ".glb"
    ensures AddsNoQuery(o) <==> |url| == ModelPathLength(avatarId)
    ensures !AddsNoQuery(o) ==> url[ModelPathLength(avatarId)] == '?'
    ensures !AddsNoQuery(o) ==> url[ModelPathLength(avatarId) + 1..] == QueryString(AvatarParams(o))
  {
    var path := ModelsBase + "/" + avatarId + ".glb";
    AvatarParamsEmpty(o);
    var url := WithQuery(path, AvatarParams(o));
    assert url[..|path|] == path;
    url
  }

  const OptimizedOptions := AvatarOptions(Some(High), None, Some(Atlas2048), None, Some(0))
  const PerformanceOptions := AvatarOptions(Some(Medium), None, Some(Atlas1024), None, Some(1))

  lemma OptimizedParams()
    ensures AvatarParams(OptimizedOptions) == [Param(QualityKey, "high"), Param(TextureAtlasKey, "2048"), Param(LodKey, "0")]
  {
    assert IntToString(0) == "0";
  }

  lemma PerformanceParams()
    ensures AvatarParams(PerformanceOptions) == [Param(QualityKey, "medium"), Param(TextureAtlasKey, "1024"), Param(LodKey, "1")]
  {
    assert IntToString(1) == "1";
  }

  /** Model download with high quality, a 2048 texture atlas and the highest level of detail. */
  function GetOptimizedAvatarUrl(avatarId: string): (url: string)
    ensures url == WithQuery(ModelsBase + "/" + avatarId + ".glb",
      [Param(QualityKey, "high"), Param(TextureAtlasKey, "2048"), Param(LodKey, "0")])
  {
    OptimizedParams();
    GetAvatarUrl(avatarId, OptimizedOptions)
  }

  /** Model download with medium quality, a 1024 texture atlas and level of detail 1. */
  function GetPerformanceAvatarUrl(avatarId: string): (url: string)
    ensures url == WithQuery(ModelsBase + "/" + avatarId + ".glb",
      [Param(QualityKey, "medium"), Param(TextureAtlasKey, "1024"), Param(LodKey, "1")])
  {
    PerformanceParams();
    GetAvatarUrl(avatarId, PerformanceOptions)
  }

  /** With no options the URL is exactly the model path, with no `?`. */
  lemma AvatarUrlWithoutOptions(avatarId: string)
    ensures GetAvatarUrl(avatarId, NoAvatarOptions) == ModelsBase + "/" + avatarId + ".glb"
  {
  }

  // ---------------------------------------------------------------------------
  // Extracting an id
  // ---------------------------------------------------------------------------

  /** The pattern `/<24 hex digits>.glb`, case-insensitive, matches at position `p`. */
  predicate GlbMatchAt(s: string, p: nat) {
    p + 29 <= |s| && s[p] == '/' && IsValidAvatarId(s[p + 1..p + 25]) && EqualsIgnoreCase(s[p + 25..p + 29], ".glb")
  }

  /** The leftmost match of the `.glb` pattern at or after `from`. */
  function FirstGlbMatch(s: string, from: nat): (r: Option<nat>)
    ensures r.Some? ==> from <= r.value && GlbMatchAt(s, r.value)
    ensures r.Some? ==> forall q :: from <= q < r.value ==> !GlbMatchAt(s, q)
    ensures r.None? ==> forall q :: from <= q ==> !GlbMatchAt(s, q)
    decreases |s| - from
  {
    if from + 29 > |s| then None
    else if GlbMatchAt(s, from) then Some(from)
    else FirstGlbMatch(s, from + 1)
  }

  /** The avatar id at the start of the text after the last `/`, if it starts with 24 hex digits. */
  function LeadingIdOfLastSegment(url: string): (r: Option<string>)
    ensures r.Some? <==> |LastSegment(url)| >= 24 && IsValidAvatarId(LastSegment(url)[..24])
    ensures r.Some? ==> r.value == LastSegment(url)[..24]
  {
    var last := LastSegment(url);
    if |last| >= 24 && IsValidAvatarId(last[..24]) then Some(last[..24]) else None
  }

  /**
   * The avatar id in a URL: the input itself when it has neither `/` nor
   * `.`; else the 24 digits of the leftmost `/<id>.glb`; else the id
   * starting the last path segment; else nothing.
   */
  function ExtractAvatarId(url: string): (r: Option<string>)
    ensures '/' !in url && '.' !in url ==> r == Some(url)
    ensures ('/' in url || '.' in url) && r.Some? ==> IsValidAvatarId(r.value)
    ensures ('/' in url || '.' in url) && FirstGlbMatch(url, 0).Some? ==>
      r == Some(url[FirstGlbMatch(url, 0).value + 1..FirstGlbMatch(url, 0).value + 25])
    ensures ('/' in url || '.' in url) && FirstGlbMatch(url, 0).None? ==> r == LeadingIdOfLastSegment(url)
  {
    if '/' !in url && '.' !in url then Some(url)
    else match FirstGlbMatch(url, 0)
      case Some(p) => Some(url[p + 1..p + 25])
      case None => LeadingIdOfLastSegment(url)
  }

  /** A bare valid id is returned as it is. */
  lemma ExtractBareId(avatarId: string)
    requires IsValidAvatarId(avatarId)
    ensures ExtractAvatarId(avatarId) == Some(avatarId)
  {
    assert forall i :: 0 <= i < |avatarId| ==> avatarId[i] != '/' && avatarId[i] != '.';
  }

  /** Any match of the pattern is found, and the leftmost one is the one reported. */
  lemma FirstGlbMatchIsLeftmost(s: string, p: nat)
    requires GlbMatchAt(s, p)
    requires forall q :: 0 <= q < p ==> !GlbMatchAt(s, q)
    ensures FirstGlbMatch(s, 0) == Some(p)
  {
  }

  /** The only slashes of the model host address are the two after the scheme. */
  lemma SlashesOfModelsBase()
    ensures forall i :: 0 <= i < |ModelsBase| && i != 6 && i != 7 ==> ModelsBase[i] != '/'
    ensures ModelsBase[7] == '/' && ModelsBase[8] == 'm'
  {
    var scheme := "https:";
    var host := "models.readyplayer.me";
    assert ModelsBase == scheme + "//" + host;
    assert '/' !in scheme && '/' !in host;
    forall i | 0 <= i < |ModelsBase| && i != 6 && i != 7
      ensures ModelsBase[i] != '/'
    {
      if i < 6 {
        assert ModelsBase[i] == scheme[i];
      } else {
        assert ModelsBase[i] == host[i - 8];
      }
    }
  }

  /** A URL that starts with the model path of a valid id yields that id. */
  lemma ExtractFromModelPath(url: string, avatarId: string)
    requires IsValidAvatarId(avatarId)
    requires |url| >= ModelPathLength(avatarId) && url[..ModelPathLength(avatarId)] == ModelsBase + "/" + avatarId + ".glb"
    ensures ExtractAvatarId(url) == Some(avatarId)
  {
    var n := |ModelsBase|;
    var path := ModelsBase + "/" + avatarId + ".glb";
    assert url[n] == path[n] == '/';
    assert url[n + 1..n + 25] == path[n + 1..n + 25] == avatarId;
    assert url[n + 25..n + 29] == path[n + 25..n + 29] == ".glb";
    assert GlbMatchAt(url, n);
    SlashesOfModelsBase();
    forall q | 0 <= q < n
      ensures !GlbMatchAt(url, q)
    {
      assert url[q] == path[q] == ModelsBase[q];
      if q == 6 || q == 7 {
        assert url[q + 1] == path[q + 1] == ModelsBase[q + 1];
        assert !IsHex(url[q + 1]);
        assert url[q + 1..q + 25][0] == url[q + 1];
      }
    }
    FirstGlbMatchIsLeftmost(url, n);
  }

  /** Reading the id back out of the model URL gives the id, whatever the options. */
  lemma ExtractAvatarIdRoundTrip(avatarId: string, o: AvatarOptions)
    requires IsValidAvatarId(avatarId)
    ensures ExtractAvatarId(GetAvatarUrl(avatarId, o)) == Some(avatarId)
  {
    ExtractFromModelPath(GetAvatarUrl(avatarId, o), avatarId);
  }

  // ---------------------------------------------------------------------------
  // Avatar creator URL
  // ---------------------------------------------------------------------------

  datatype RpmConfig = RpmConfig(subdomain: string, creatorUrl: Option<string>, apiUrl: Option<string>)

  const DefaultConfig := RpmConfig("workyy", Some("https://" + "{subdomain}" + ".readyplayer.me"), Some(DefaultApiUrl))

  /** The creator address: the template with the subdomain substituted, or the standard address when there is no template or it comes out empty. */
  function CreatorBase(config: RpmConfig): (base: string)
    ensures base != []
    ensures config.creatorUrl.None? || config.creatorUrl.value == [] ==> base == StandardCreatorBase(config.subdomain)
    ensures config.creatorUrl.Some? && ReplaceFirst(config.creatorUrl.value, "{subdomain}", config.subdomain) != [] ==>
      base == ReplaceFirst(config.creatorUrl.value, "{subdomain}", config.subdomain)
    ensures config.creatorUrl.Some? && ReplaceFirst(config.creatorUrl.value, "{subdomain}", config.subdomain) == [] ==>
      base == StandardCreatorBase(config.subdomain)
    ensures config.creatorUrl.Some? && FindFrom(config.creatorUrl.value, "{subdomain}", 0).None? && config.creatorUrl.value != [] ==>
      base == config.creatorUrl.value
  {
    var replaced := if config.creatorUrl.Some? then ReplaceFirst(config.creatorUrl.value, "{subdomain}", config.subdomain) else "";
    if replaced != "" then replaced else StandardCreatorBase(config.subdomain)
  }

  /** `https://<subdomain>.readyplayer.me`, the address used when no usable template is configured. */
  function StandardCreatorBase(subdomain: string): string {
    "https://" + subdomain + ".readyplayer.me"
  }

  /** Substituting into a template whose first brace opens the placeholder. */
  lemma ReplaceSubdomain(prefix: string, suffix: string, subdomain: string)
    requires '{' !in prefix
    ensures ReplaceFirst(prefix + "{subdomain}" + suffix, "{subdomain}", subdomain) == prefix + subdomain + suffix
  {
    var pat := "{subdomain}";
    var t := prefix + pat + suffix;
    var p := |prefix|;
    assert t[p..p + |pat|] == pat;
    forall q | 0 <= q < p
      ensures !OccursAt(t, pat, q)
    {
      assert t[q] == prefix[q];
    }
    assert OccursAt(t, pat, p);
    FindFromLeftmost(t, pat, p);
    var r := ReplaceFirst(t, pat, subdomain);
    assert t[..p] == prefix && t[p + |pat|..] == suffix;
    assert r == r[..p] + r[p..p + |subdomain|] + r[p + |subdomain|..];
  }

  /**
   * Any template whose first brace opens the placeholder: the subdomain takes
   * the placeholder's place, and only an entirely empty result falls back to
   * the standard address.
   */
  lemma TemplateCreatorBaseGeneral(config: RpmConfig, prefix: string, suffix: string)
    requires config.creatorUrl == Some(prefix + "{subdomain}" + suffix)
    requires '{' !in prefix
    ensures prefix + config.subdomain + suffix != [] ==> CreatorBase(config) == prefix + config.subdomain + suffix
    ensures prefix + config.subdomain + suffix == [] ==> CreatorBase(config) == StandardCreatorBase(config.subdomain)
  {
    ReplaceSubdomain(prefix, suffix, config.subdomain);
  }

  /** With the default template the creator lives on the configured subdomain of readyplayer.me. */
  lemma TemplateCreatorBase(config: RpmConfig)
    requires config.creatorUrl == DefaultConfig.creatorUrl
    ensures CreatorBase(config) == "https://" + config.subdomain + ".readyplayer.me"
  {
    TemplateCreatorBaseGeneral(config, "https://", ".readyplayer.me");
  }

  datatype BodyType = FullBody | HalfBody

  function BodyTypeText(b: BodyType): string {
    match b
    case FullBody => "fullbody"
    case HalfBody => "halfbody"
  }

  /** Options of the avatar creator; an empty string stands for an absent (falsy) text option. */
  datatype CreatorOptions = CreatorOptions(
    clearCache: bool,
    bodyType: Option<BodyType>,
    quickStart: bool,
    frameTitle: string,
    frameRedirectUrl: string,
    frameIcon: string)

  predicate NoCreatorOptions(o: CreatorOptions) {
    !o.clearCache && o.bodyType.None? && !o.quickStart && o.frameTitle == [] && o.frameRedirectUrl == [] && o.frameIcon == []
  }

  /** A flag is appended, as `true`, only when it is set. */
  function Flag(b: bool): Option<string> {
    if b then Some("true") else None
  }

  /** A text option is appended only when it is truthy, that is, non-empty; `encode` is the form encoding of its value. */
  function TruthyText(t: string, encode: string -> string): Option<string> {
    if t != [] then Some(encode(t)) else None
  }

  /** The creator options in the order they are appended, each with its value when it is to be appended. */
  function CreatorCandidates(o: CreatorOptions, encode: string -> string): seq<Candidate> {
    [ Candidate(ClearCacheKey, Flag(o.clearCache)),
      Candidate(BodyTypeKey, o.bodyType.Map(BodyTypeText)),
      Candidate(QuickStartKey, Flag(o.quickStart)),
      Candidate(FrameTitleKey, TruthyText(o.frameTitle, encode)),
      Candidate(FrameRedirectUrlKey, TruthyText(o.frameRedirectUrl, encode)),
      Candidate(FrameIconKey, TruthyText(o.frameIcon, encode)) ]
  }

  /** The creator's query parameters. */
  function CreatorParams(o: CreatorOptions, encode: string -> string): (ps: seq<Param>)
    ensures |ps| <= 6
  {
    Present(CreatorCandidates(o, encode))
  }

  /** The creator parameters come in their fixed order, and only creator options appear. */
  lemma CreatorParamsRanked(o: CreatorOptions, encode: string -> string)
    ensures Ranked(CreatorParams(o, encode))
    ensures RanksWithin(CreatorParams(o, encode), 5, 10)
  {
    PresentRanked(CreatorCandidates(o, encode));
    PresentWithin(CreatorCandidates(o, encode), 5, 10);
  }

  /**
   * Each creator option appears exactly when set: the flags only with the
   * value `true`, the body type by name, the texts encoded and only when
   * non-empty.
   */
  lemma CreatorParamsLookup(o: CreatorOptions, encode: string -> string)
    ensures Lookup(CreatorParams(o, encode), ClearCacheKey) == if o.clearCache then Some("true") else None
    ensures Lookup(CreatorParams(o, encode), QuickStartKey) == if o.quickStart then Some("true") else None
    ensures Lookup(CreatorParams(o, encode), BodyTypeKey) == o.bodyType.Map(BodyTypeText)
    ensures Lookup(CreatorParams(o, encode), FrameTitleKey) == if o.frameTitle != [] then Some(encode(o.frameTitle)) else None
    ensures Lookup(CreatorParams(o, encode), FrameRedirectUrlKey) == if o.frameRedirectUrl != [] then Some(encode(o.frameRedirectUrl)) else None
    ensures Lookup(CreatorParams(o, encode), FrameIconKey) == if o.frameIcon != [] then Some(encode(o.frameIcon)) else None
  {
    var cs := CreatorCandidates(o, encode);
    PresentLookup(cs, 0);
    PresentLookup(cs, 1);
    PresentLookup(cs, 2);
    PresentLookup(cs, 3);
    PresentLookup(cs, 4);
    PresentLookup(cs, 5);
  }

  /** No creator parameters at all exactly when no option is set. */
  lemma CreatorParamsEmpty(o: CreatorOptions, encode: string -> string)
    ensures CreatorParams(o, encode) == [] <==> NoCreatorOptions(o)
  {
    var cs := CreatorCandidates(o, encode);
    PresentEmpty(cs);
    if CreatorParams(o, encode) == [] {
      assert cs[0].value.None? && cs[1].value.None? && cs[2].value.None?;
      assert cs[3].value.None? && cs[4].value.None? && cs[5].value.None?;
    }
  }

  /** The creator address followed by its query, with no `?` when no option is set. */
  function GetCreatorUrl(config: RpmConfig, o: CreatorOptions, encode: string -> string): (url: string)
    ensures |url| >= |CreatorBase(config)| && url[..|CreatorBase(config)|] == CreatorBase(config)
    ensures NoCreatorOptions(o) <==> url == CreatorBase(config)
    ensures !NoCreatorOptions(o) ==> url[|CreatorBase(config)|] == '?'
    ensures !NoCreatorOptions(o) ==> url[|CreatorBase(config)| + 1..] == QueryString(CreatorParams(o, encode))
  {
    var base := CreatorBase(config);
    CreatorParamsEmpty(o, encode);
    var url := WithQuery(base, CreatorParams(o, encode));
    assert url[..|base|] == base;
    url
  }

  /** The metadata endpoint of an avatar, under the configured API address or the standard one. */
  function AvatarMetadataUrl(avatarId: string, config: RpmConfig): (url: string)
    ensures config.apiUrl.None? || config.apiUrl.value == [] ==> url == DefaultApiUrl + "/avatars/" + avatarId
    ensures config.apiUrl.Some? && config.apiUrl.value != [] ==> url == config.apiUrl.value + "/avatars/" + avatarId
  {
    var api := if config.apiUrl.Some? && config.apiUrl.value != [] then config.apiUrl.value else DefaultApiUrl;
    api + "/avatars/" + avatarId
  }
}

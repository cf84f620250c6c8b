/**
  `is_supported_platform`: whether the platform in use is allowed by a list
  of platform tags. Plain tags list the allowed platforms, `!`-prefixed tags
  remove a platform; with no plain tag every known platform is allowed.
 */
module Platform {
  import opened Text

  /** The platforms allowed when the tags list none explicitly. */
  const AllPlatforms: set<string> := {"darwin", "linux", "mingw", "win32"}

  function Included(tags: seq<string>): set<string> {
    set t | t in tags && !StartsWith(t, "!")
  }

  function Excluded(tags: seq<string>): set<string> {
    set t | t in tags && StartsWith(t, "!") :: t[1..]
  }

  function Allowed(tags: seq<string>): set<string> {
    (if Included(tags) != {} then Included(tags) else AllPlatforms) - Excluded(tags)
  }

  /** `is_supported_platform(tags)`, the platform in use passed in. */
  predicate IsSupportedPlatform(tags: seq<string>, inUse: string) {
    inUse in Allowed(tags)
  }

  /** `is_supported_platform` on a string or a list: a string is its comma-split list. */
  predicate IsSupportedField(field: StringOrList, inUse: string) {
    IsSupportedPlatform(field.CommaList(), inUse)
  }

  /** A platform is excluded exactly when its `!`-prefixed tag is present. */
  lemma ExcludedIff(tags: seq<string>, p: string)
    ensures p in Excluded(tags) <==> "!" + p in tags
  {
    if "!" + p in tags {
      var t := "!" + p;
      assert StartsWith(t, "!") && t[1..] == p;
    }
    if p in Excluded(tags) {
      var t :| t in tags && StartsWith(t, "!") && t[1..] == p;
      assert t == [t[0]] + t[1..];
    }
  }

  /**
    With only negated tags the allowed set is the four known platforms minus
    the negated ones.
   */
  lemma OnlyNegations(tags: seq<string>, inUse: string)
    requires forall t :: t in tags ==> StartsWith(t, "!")
    ensures IsSupportedPlatform(tags, inUse) <==> inUse in AllPlatforms && "!" + inUse !in tags
  {
    assert Included(tags) == {};
    ExcludedIff(tags, inUse);
  }

  /** A list of negations that negates the platform in use rejects it. */
  lemma NegatedPlatformRejected(tags: seq<string>, inUse: string)
    requires forall t :: t in tags ==> StartsWith(t, "!")
    requires "!" + inUse in tags
    ensures !IsSupportedPlatform(tags, inUse)
  {
    OnlyNegations(tags, inUse);
  }

  /**
    Once a plain tag is present, the platform in use must be one of the plain
    tags and must not be negated.
   */
  lemma WithIncludedTags(tags: seq<string>, inUse: string)
    requires exists t :: t in tags && !StartsWith(t, "!")
    ensures IsSupportedPlatform(tags, inUse) <==>
      inUse in tags && !StartsWith(inUse, "!") && "!" + inUse !in tags
  {
    var t :| t in tags && !StartsWith(t, "!");
    assert t in Included(tags);
    ExcludedIff(tags, inUse);
  }

  /** The string form of the tags behaves exactly as its comma-split list. */
  lemma StringTagsAreCommaSplit(s: string, inUse: string)
    ensures IsSupportedField(OneString(s), inUse) <==> IsSupportedPlatform(Split(s, ','), inUse)
    ensures Join(Split(s, ','), ",") == s
  {
    JoinSplit(s, ',');
  }
}

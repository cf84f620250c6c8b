/**
  The requirement-string parser of `install_requirements`: a requirement is
  split on single spaces; each token is a flag recognised by its prefix (or,
  for `--no-deps` and `--prefer-binary`, by exact match), and every other
  token is the identifier, so the last such token wins. A later flag of the
  same kind overrides an earlier one.
 */
module Requirement {
  import opened Wrappers
  import opened Text

  datatype Token =
    | CondaAlias(value: string)
    | MingwAlias(value: string)
    | FindLinks(value: string)
    | NoDeps
    | PlatformTags(value: string)
    | VersionSpec(value: string)
    | PreferBinary
    | Identifier(name: string)

  /** What a `--flag=value` token carries: `token.split("=")[1]`. */
  function FlagValue(tok: string): string
    requires '=' in tok
  {
    Split(tok, '=')[1]
  }

  lemma FlagHasEquals(tok: string, flag: string)
    requires StartsWith(tok, flag) && |flag| > 0 && flag[|flag| - 1] == '='
    ensures '=' in tok
  {
    assert tok[|flag| - 1] == tok[..|flag|][|flag| - 1];
  }

  /** The value of a `--flag=` token is the text after the flag up to the next `=`. */
  lemma FlagValueIsBetweenEquals(tok: string, flag: string)
    requires StartsWith(tok, flag) && |flag| > 0 && flag[|flag| - 1] == '=' && '=' !in flag[..|flag| - 1]
    ensures '=' in tok && FlagValue(tok) == CutAt(tok[|flag|..], '=')
  {
    FlagHasEquals(tok, flag);
    var x := CutAt(tok, '=');
    SecondPiece(tok, '=');
    assert |x| == |flag| - 1 by {
      assert tok[..|flag| - 1] == flag[..|flag| - 1];
    }
  }

  /** How one token of a requirement is read; the tests are tried in this order. */
  function Classify(tok: string): Token {
    if StartsWith(tok, "--conda=") then FlagHasEquals(tok, "--conda="); CondaAlias(FlagValue(tok))
    else if StartsWith(tok, "--mingw=") then FlagHasEquals(tok, "--mingw="); MingwAlias(FlagValue(tok))
    else if StartsWith(tok, "--find-links=") then FlagHasEquals(tok, "--find-links="); FindLinks(FlagValue(tok))
    else if tok == "--no-deps" then NoDeps
    else if StartsWith(tok, "--platform=") then FlagHasEquals(tok, "--platform="); PlatformTags(FlagValue(tok))
    else if StartsWith(tok, "--python-version") then VersionSpec(tok[|"--python-version"|..])
    else if tok == "--prefer-binary" then PreferBinary
    else Identifier(tok)
  }

  /** Every flag starts with `-`, so a token that does not is an identifier. */
  lemma UndashedIsIdentifier(tok: string)
    requires tok != [] && tok[0] != '-'
    ensures Classify(tok) == Identifier(tok)
  {
    NotUnderDash(tok, "--conda=");
    NotUnderDash(tok, "--mingw=");
    NotUnderDash(tok, "--find-links=");
    NotUnderDash(tok, "--no-deps");
    NotUnderDash(tok, "--platform=");
    NotUnderDash(tok, "--python-version");
    NotUnderDash(tok, "--prefer-binary");
  }

  /** A requirement that is one plain name: no space, and no leading `-`, which every flag has. */
  predicate PlainName(req: string) {
    req != [] && req[0] != '-' && ' ' !in req
  }

  lemma NotUnderDash(tok: string, flag: string)
    requires tok != [] && tok[0] != '-' && flag != [] && flag[0] == '-'
    ensures !StartsWith(tok, flag) && tok != flag
  {
  }

  /**
    The local variables of the token loop. An unset string flag is "", which
    the script treats exactly as it treats `None`: every use of these values
    is guarded by a truth test. The identifier keeps `None` apart from "",
    because the script tests it with `is None`.
   */
  datatype Flags = Flags(
    condaAlias: string,
    mingwAlias: string,
    findLinks: string,
    noDeps: bool,
    platform: string,
    pythonVersion: string,
    preferBinary: bool,
    require: Option<string>)

  const Unset := Flags("", "", "", false, "", "", false, None)

  function Apply(f: Flags, t: Token): Flags {
    match t
    case CondaAlias(v) => f.(condaAlias := v)
    case MingwAlias(v) => f.(mingwAlias := v)
    case FindLinks(v) => f.(findLinks := v)
    case NoDeps => f.(noDeps := true)
    case PlatformTags(v) => f.(platform := v)
    case VersionSpec(v) => f.(pythonVersion := v)
    case PreferBinary => f.(preferBinary := true)
    case Identifier(name) => f.(require := Some(name))
  }

  /** The flags after reading the tokens from left to right. */
  function Fold(ts: seq<Token>): Flags
    decreases |ts|
  {
    if ts == [] then Unset
    else Apply(Fold(ts[..|ts| - 1]), ts[|ts| - 1])
  }

  /** The space-separated tokens of a requirement, classified. */
  function Tokens(req: string): seq<Token> {
    var toks := Split(req, ' ');
    seq(|toks|, i requires 0 <= i < |toks| => Classify(toks[i]))
  }

  function Parse(req: string): Flags {
    Fold(Tokens(req))
  }

  /** The token loop of `install_requirements`. */
  method ParseRequirement(req: string) returns (f: Flags)
    ensures f == Parse(req)
  {
    var toks := Split(req, ' ');
    ghost var ts := Tokens(req);
    f := Unset;
    for i := 0 to |toks|
      invariant f == Fold(ts[..i])
    {
      var tok := toks[i];
      assert ts[i] == Classify(tok);
      if StartsWith(tok, "--conda=") {
        FlagHasEquals(tok, "--conda=");
        f := f.(condaAlias := FlagValue(tok));
      } else if StartsWith(tok, "--mingw=") {
        FlagHasEquals(tok, "--mingw=");
        f := f.(mingwAlias := FlagValue(tok));
      } else if StartsWith(tok, "--find-links=") {
        FlagHasEquals(tok, "--find-links=");
        f := f.(findLinks := FlagValue(tok));
      } else if tok == "--no-deps" {
        f := f.(noDeps := true);
      } else if StartsWith(tok, "--platform=") {
        FlagHasEquals(tok, "--platform=");
        f := f.(platform := FlagValue(tok));
      } else if StartsWith(tok, "--python-version") {
        f := f.(pythonVersion := tok[|"--python-version"|..]);
      } else if tok == "--prefer-binary" {
        f := f.(preferBinary := true);
      } else {
        f := f.(require := Some(tok));
      }
      assert ts[..i + 1][..i] == ts[..i];
    }
    assert ts[..|ts|] == ts;
  }

  /** `k` is the position of the last identifier token. */
  predicate LastIdentifierAt(ts: seq<Token>, k: nat) {
    k < |ts| && ts[k].Identifier? && forall j :: k < j < |ts| ==> !ts[j].Identifier?
  }

  /** A token is `NoDeps` or `PreferBinary` only when it is exactly that flag. */
  lemma ClassifyExact(tok: string)
    ensures Classify(tok) == NoDeps <==> tok == "--no-deps"
    ensures Classify(tok) == PreferBinary <==> tok == "--prefer-binary"
  {
    if tok == "--no-deps" {
      DiffersAt(tok, "--conda=", 2);
      DiffersAt(tok, "--mingw=", 2);
      DiffersAt(tok, "--find-links=", 2);
    }
    if tok == "--prefer-binary" {
      DiffersAt(tok, "--conda=", 2);
      DiffersAt(tok, "--mingw=", 2);
      DiffersAt(tok, "--find-links=", 2);
      DiffersAt(tok, "--no-deps", 2);
      DiffersAt(tok, "--platform=", 3);
      DiffersAt(tok, "--python-version", 3);
    }
  }

  /** A token that differs from a flag at some position neither starts with it nor equals it. */
  lemma DiffersAt(tok: string, flag: string, i: nat)
    requires i < |tok| && i < |flag| && tok[i] != flag[i]
    ensures !StartsWith(tok, flag) && tok != flag
  {
  }

  /**
    What the token loop leaves behind: the identifier is the last token that
    is not a flag (None when every token is a flag), and `--no-deps` and
    `--prefer-binary` are set exactly when such a token occurs.
   */
  lemma {:induction false} FoldFacts(ts: seq<Token>)
    ensures Fold(ts).noDeps <==> NoDeps in ts
    ensures Fold(ts).preferBinary <==> PreferBinary in ts
    ensures Fold(ts).require.None? <==> forall i :: 0 <= i < |ts| ==> !ts[i].Identifier?
    ensures Fold(ts).require.Some? ==>
      exists k: nat :: LastIdentifierAt(ts, k) && ts[k] == Identifier(Fold(ts).require.value)
    decreases |ts|
  {
    if ts != [] {
      var init := ts[..|ts| - 1];
      var last := ts[|ts| - 1];
      FoldFacts(init);
      assert ts == init + [last];
      if last.Identifier? {
        assert LastIdentifierAt(ts, |ts| - 1);
      } else if Fold(init).require.Some? {
        var k: nat :| LastIdentifierAt(init, k) && init[k] == Identifier(Fold(init).require.value);
        assert LastIdentifierAt(ts, k);
      }
    }
  }

  /** The five flags that carry a value, each kept in a field of its own. */
  datatype ValuedFlag = CondaFlag | MingwFlag | FindLinksFlag | PlatformFlag | VersionFlag

  /** `t` is a token of that flag. */
  predicate OfKind(t: Token, k: ValuedFlag) {
    match k
    case CondaFlag => t.CondaAlias?
    case MingwFlag => t.MingwAlias?
    case FindLinksFlag => t.FindLinks?
    case PlatformFlag => t.PlatformTags?
    case VersionFlag => t.VersionSpec?
  }

  /** The field a valued flag sets. */
  function Setting(f: Flags, k: ValuedFlag): string {
    match k
    case CondaFlag => f.condaAlias
    case MingwFlag => f.mingwAlias
    case FindLinksFlag => f.findLinks
    case PlatformFlag => f.platform
    case VersionFlag => f.pythonVersion
  }

  /** `j` is the position of the last token of flag `k`. */
  predicate LastOfKindAt(ts: seq<Token>, k: ValuedFlag, j: nat) {
    j < |ts| && OfKind(ts[j], k) && forall i :: j < i < |ts| ==> !OfKind(ts[i], k)
  }

  /** A token sets the field of its own flag to its value and leaves the other valued fields alone. */
  lemma ApplySetting(f: Flags, t: Token, k: ValuedFlag)
    ensures OfKind(t, k) ==> Setting(Apply(f, t), k) == t.value
    ensures !OfKind(t, k) ==> Setting(Apply(f, t), k) == Setting(f, k)
  {
  }

  /**
    A later token of a valued flag overrides an earlier one: the field holds
    the value of the last token of its flag, and stays "" when there is none.
   */
  lemma {:induction false} LastValuedFlagWins(ts: seq<Token>, k: ValuedFlag)
    ensures (forall i :: 0 <= i < |ts| ==> !OfKind(ts[i], k)) ==> Setting(Fold(ts), k) == ""
    ensures forall j: nat :: LastOfKindAt(ts, k, j) ==> Setting(Fold(ts), k) == ts[j].value
    ensures Setting(Fold(ts), k) != "" ==>
      exists j: nat :: LastOfKindAt(ts, k, j) && ts[j].value == Setting(Fold(ts), k)
    decreases |ts|
  {
    if ts != [] {
      var init := ts[..|ts| - 1];
      var last := ts[|ts| - 1];
      LastValuedFlagWins(init, k);
      assert Fold(ts) == Apply(Fold(init), last);
      ApplySetting(Fold(init), last, k);
      assert ts == init + [last];
      if OfKind(last, k) {
        assert LastOfKindAt(ts, k, |ts| - 1);
      } else {
        forall j: nat | LastOfKindAt(ts, k, j) ensures LastOfKindAt(init, k, j) {
          LastOfKindBefore(init, last, k, j);
        }
        if Setting(Fold(init), k) != "" {
          var j: nat :| LastOfKindAt(init, k, j) && init[j].value == Setting(Fold(init), k);
          LastOfKindBefore(init, last, k, j);
        }
      }
    }
  }

  /** Appending a token of another flag keeps the last token of flag `k` where it was. */
  lemma LastOfKindBefore(init: seq<Token>, last: Token, k: ValuedFlag, j: nat)
    requires !OfKind(last, k)
    ensures LastOfKindAt(init + [last], k, j) <==> LastOfKindAt(init, k, j)
  {
    var ts := init + [last];
    if j < |init| {
      assert ts[j] == init[j];
      assert forall i :: j < i < |init| ==> ts[i] == init[i];
    }
  }

  /** `--no-deps` is set exactly when the requirement has that token. */
  lemma NoDepsIffToken(req: string)
    ensures Parse(req).noDeps <==> "--no-deps" in Split(req, ' ')
  {
    var toks := Split(req, ' ');
    var ts := Tokens(req);
    assert |ts| == |toks| && forall i :: 0 <= i < |ts| ==> ts[i] == Classify(toks[i]);
    FoldFacts(ts);
    if "--no-deps" in toks {
      var i :| 0 <= i < |toks| && toks[i] == "--no-deps";
      ClassifyExact(toks[i]);
    }
    if NoDeps in ts {
      var i :| 0 <= i < |ts| && ts[i] == NoDeps;
      ClassifyExact(toks[i]);
    }
  }

  /** `--python-version` keeps everything after the flag name, operator included. */
  lemma VersionSpecKeepsRemainder(rest: string)
    ensures Classify("--python-version" + rest) == VersionSpec(rest)
  {
    var tok := "--python-version" + rest;
    assert tok[..16] == "--python-version";
    assert tok[16..] == rest;
    assert tok[2] != "--conda="[2];
    assert tok[2] != "--mingw="[2];
    assert tok[2] != "--find-links="[2];
    assert tok != "--no-deps";
    assert tok[3] != "--platform="[3];
  }

  /** `"<name> --no-deps"` names `name` and sets `--no-deps` and nothing else. */
  lemma ParseWithNoDeps(name: string)
    requires PlainName(name)
    ensures Parse(name + " --no-deps") == Unset.(noDeps := true, require := Some(name))
  {
    assert name + " --no-deps" == name + " " + "--no-deps";
    ClassifyExact("--no-deps");
    IdentifierThenToken(name, "--no-deps");
    FoldIdentifierNoDeps(name);
  }

  /** An identifier, one space and a token without spaces give exactly those two tokens. */
  lemma IdentifierThenToken(name: string, t: string)
    requires PlainName(name) && ' ' !in t
    ensures Tokens(name + " " + t) == [Identifier(name), Classify(t)]
  {
    var req := name + " " + t;
    assert Split(req, ' ') == [name, t] by {
      assert req == name + [' '] + t;
      SplitAfterPiece(name, t, ' ');
      SplitWithoutSeparator(t, ' ');
    }
    UndashedIsIdentifier(name);
  }

  /** An identifier followed by a `--python-version` condition sets exactly those two. */
  lemma ParseWithVersion(name: string, spec: string)
    requires PlainName(name) && ' ' !in spec
    ensures Parse(name + " --python-version" + spec) == Unset.(pythonVersion := spec, require := Some(name))
  {
    UndashedIsIdentifier(name);
    var req := name + " --python-version" + spec;
    SplitVersionRequirement(name, spec);
    var ts := Tokens(req);
    assert ts == [Identifier(name), VersionSpec(spec)] by {
      VersionSpecKeepsRemainder(spec);
    }
    FoldIdentifierVersion(name, spec);
  }

  lemma SplitVersionRequirement(name: string, spec: string)
    requires ' ' !in name && ' ' !in spec
    ensures Split(name + " --python-version" + spec, ' ') == [name, "--python-version" + spec]
  {
    var flag := "--python-version" + spec;
    assert ' ' !in flag by {
      assert forall i :: 0 <= i < 16 ==> flag[i] == "--python-version"[i];
      assert forall i :: 16 <= i < |flag| ==> flag[i] == spec[i - 16];
    }
    assert name + " --python-version" + spec == name + [' '] + flag;
    SplitAfterPiece(name, flag, ' ');
    SplitWithoutSeparator(flag, ' ');
  }

  lemma FoldIdentifierVersion(name: string, spec: string)
    ensures Fold([Identifier(name), VersionSpec(spec)]) == Unset.(pythonVersion := spec, require := Some(name))
  {
    var ts := [Identifier(name), VersionSpec(spec)];
    assert ts[..1] == [Identifier(name)] && ts[..1][..0] == [];
    assert Fold(ts[..1]) == Unset.(require := Some(name));
  }

  /** A requirement that is one plain identifier sets only the identifier. */
  lemma ParseBare(name: string)
    requires PlainName(name)
    ensures Parse(name) == Unset.(require := Some(name))
  {
    UndashedIsIdentifier(name);
    SplitWithoutSeparator(name, ' ');
    var ts := Tokens(name);
    assert ts == [Identifier(name)];
    assert ts[..0] == [];
    assert Fold(ts) == Apply(Unset, Identifier(name));
  }

  lemma FoldIdentifierNoDeps(name: string)
    ensures Fold([Identifier(name), NoDeps]) == Unset.(noDeps := true, require := Some(name))
  {
    var ts := [Identifier(name), NoDeps];
    assert ts[..1] == [Identifier(name)];
    assert ts[..1][..0] == [];
    assert Fold(ts[..1]) == Unset.(require := Some(name));
    assert Fold(ts) == Apply(Fold(ts[..1]), NoDeps);
  }

  /** A requirement made only of flags leaves the identifier unset. */
  lemma ParseFlagsOnlyExample()
    ensures Parse("--no-deps").require == None
  {
    SplitWithoutSeparator("--no-deps", ' ');
    ClassifyExact("--no-deps");
    var ts := Tokens("--no-deps");
    assert ts == [NoDeps];
    assert ts[..0] == [];
  }
}

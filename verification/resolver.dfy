/**
 * The placeholder resolver of the dev plugin (DevBasePlugin.resolve).
 *
 * The inherited resolver runs first; this layer then applies a fixed
 * sequence of all-occurrence replacements. `{MCP_DATA_DIR}` is first
 * rewritten to `{FML_CONF_DIR}`, which the last replacement expands, and
 * `{VERSION}` is the project version with the Minecraft version prefix
 * stripped.
 */
module Resolver {
  import opened JavaStrings
  import opened Optional

  /** The properties of the plugin extension that the resolver reads. */
  datatype DevExtension = DevExtension(
    version: string,            // the Minecraft version, e.g. "1.7.10-pre4"
    mainClass: string,
    tweakClass: string,
    installerVersion: string,
    fmlDir: string,
    forgeDir: string,
    bukkitDir: string)

  /**
   * What one call of the resolver sees: the project version, the extension
   * and the inherited resolver (BasePlugin.resolve, not part of this model),
   * given as a function of the pattern.
   */
  datatype Context = Context(projectVersion: string, ext: DevExtension, baseResolve: string -> string)

  const MCP_DATA_DIR: string := "{MCP_DATA_DIR}"
  const VERSION: string := "{VERSION}"
  const MAIN_CLASS: string := "{MAIN_CLASS}"
  const FML_TWEAK_CLASS: string := "{FML_TWEAK_CLASS}"
  const INSTALLER_VERSION: string := "{INSTALLER_VERSION}"
  const FML_DIR: string := "{FML_DIR}"
  const FORGE_DIR: string := "{FORGE_DIR}"
  const BUKKIT_DIR: string := "{BUKKIT_DIR}"
  const FML_CONF_DIR: string := "{FML_CONF_DIR}"

  /** The Minecraft version with every '-' changed to '_'. */
  function McSafe(mcVersion: string): (r: string)
    ensures |r| == |mcVersion| && '-' !in r
    ensures forall i :: 0 <= i < |r| ==> r[i] == (if mcVersion[i] == '-' then '_' else mcVersion[i])
  {
    ReplaceChar(mcVersion, '-', '_')
  }

  /**
   * The value of `{VERSION}`: the project version without the leading
   * `McSafe(mcVersion) + "-"`, when it has that prefix.
   */
  function DisplayVersion(projectVersion: string, mcVersion: string): (r: string)
    ensures StartsWith(projectVersion, McSafe(mcVersion) + "-") ==> McSafe(mcVersion) + "-" + r == projectVersion
    ensures !StartsWith(projectVersion, McSafe(mcVersion) + "-") ==> r == projectVersion
    ensures EndsWith(projectVersion, r)
  {
    var mcSafe := McSafe(mcVersion);
    if StartsWith(projectVersion, mcSafe + "-") then projectVersion[|mcSafe| + 1..] else projectVersion
  }

  /** The replacements of this layer, in the order the source applies them. */
  function ResolveLayer(pattern: string, ctx: Context): string
  {
    var ext := ctx.ext;
    var p1 := Replace(pattern, MCP_DATA_DIR, FML_CONF_DIR);
    var p2 := Replace(p1, VERSION, DisplayVersion(ctx.projectVersion, ext.version));
    var p3 := Replace(p2, MAIN_CLASS, ext.mainClass);
    var p4 := Replace(p3, FML_TWEAK_CLASS, ext.tweakClass);
    var p5 := Replace(p4, INSTALLER_VERSION, ext.installerVersion);
    var p6 := Replace(p5, FML_DIR, ext.fmlDir);
    var p7 := Replace(p6, FORGE_DIR, ext.forgeDir);
    var p8 := Replace(p7, BUKKIT_DIR, ext.bukkitDir);
    Replace(p8, FML_CONF_DIR, ext.fmlDir + "/conf")
  }

  /** DevBasePlugin.resolve: the inherited resolver, then this layer. */
  function Resolve(pattern: string, ctx: Context): string
  {
    ResolveLayer(ctx.baseResolve(pattern), ctx)
  }

  // ---------------------------------------------------------------------
  // Reference semantics: a pattern as a sequence of literal text and tokens

  /** `{NAME}` with no brace inside. */
  predicate WellFormedToken(t: string)
  {
    |t| >= 2 && t[0] == '{' && t[|t| - 1] == '}' &&
    forall i :: 0 < i < |t| - 1 ==> t[i] != '{' && t[i] != '}'
  }

  /** A piece of a pattern: text without '{', or one token. */
  datatype Segment = Lit(text: string) | Tok(token: string)

  predicate ValidSegment(g: Segment)
  {
    match g
    case Lit(x) => '{' !in x
    case Tok(t) => WellFormedToken(t)
  }

  predicate ValidSegments(gs: seq<Segment>)
  {
    forall i :: 0 <= i < |gs| ==> ValidSegment(gs[i])
  }

  function Text(g: Segment): string
  {
    match g
    case Lit(x) => x
    case Tok(t) => t
  }

  /** The pattern that a sequence of segments spells. */
  function Flatten(gs: seq<Segment>): string
  {
    if gs == [] then "" else Text(gs[0]) + Flatten(gs[1..])
  }

  /** The segment a substituted value becomes. */
  function ValueSegment(v: string): (g: Segment)
    ensures Text(g) == v
    ensures '{' !in v || WellFormedToken(v) ==> ValidSegment(g)
  {
    if WellFormedToken(v) then Tok(v) else Lit(v)
  }

  /** One replacement, seen on one segment. */
  function Subst(g: Segment, pat: string, rep: string): Segment
  {
    if g == Tok(pat) then ValueSegment(rep) else g
  }

  /** One replacement, seen on every segment. */
  function SubstAll(gs: seq<Segment>, pat: string, rep: string): (r: seq<Segment>)
    ensures |r| == |gs|
    ensures forall i :: 0 <= i < |gs| ==> r[i] == Subst(gs[i], pat, rep)
  {
    if gs == [] then [] else [Subst(gs[0], pat, rep)] + SubstAll(gs[1..], pat, rep)
  }

  /** No token other than `pat` itself can start a match of `pat`. */
  lemma NoMatchInSegment(g: Segment, rest: string, pat: string)
    requires ValidSegment(g) && WellFormedToken(pat) && g != Tok(pat)
    ensures NoMatchBefore(Text(g) + rest, pat, |Text(g)|)
  {
    var s := Text(g) + rest;
    forall i: nat | i < |Text(g)|
      ensures !MatchAt(s, pat, i)
    {
      if i + |pat| <= |s| {
        var w := s[i..i + |pat|];
        assert w[0] == s[i];
        match g
        case Lit(x) =>
          assert s[i] == x[i];
          assert w[0] != pat[0];
        case Tok(t) =>
          assert s[i] == t[i];
          if i > 0 {
            assert w[0] != pat[0];
          } else if |pat| < |t| {
            assert w[|pat| - 1] == t[|pat| - 1];
            assert w[|pat| - 1] != pat[|pat| - 1];
          } else if |pat| == |t| {
            assert w == t;
          } else {
            assert w[|t| - 1] == t[|t| - 1];
            assert w[|t| - 1] != pat[|t| - 1];
          }
      }
    }
  }

  /** Replacing a token in a segmented pattern replaces exactly its token segments. */
  lemma {:induction false} ReplaceSegments(gs: seq<Segment>, pat: string, rep: string)
    requires WellFormedToken(pat) && ValidSegments(gs)
    ensures Replace(Flatten(gs), pat, rep) == Flatten(SubstAll(gs, pat, rep))
    decreases |gs|
  {
    if gs != [] {
      var g, rest := gs[0], gs[1..];
      assert ValidSegments(rest) by {
        forall i | 0 <= i < |rest| ensures ValidSegment(rest[i]) { assert rest[i] == gs[i + 1]; }
      }
      ReplaceSegments(rest, pat, rep);
      assert SubstAll(gs, pat, rep)[1..] == SubstAll(rest, pat, rep);
      if g == Tok(pat) {
        ReplaceLeadingMatch(pat, Flatten(rest), rep);
      } else {
        NoMatchInSegment(g, Flatten(rest), pat);
        ReplaceAfterUnmatched(Text(g), Flatten(rest), pat, rep);
      }
    }
  }

  /** A segment no later replacement touches keeps its validity when `rep` is plain text or a token. */
  lemma SubstAllValid(gs: seq<Segment>, pat: string, rep: string)
    requires ValidSegments(gs)
    requires '{' !in rep || WellFormedToken(rep)
    ensures ValidSegments(SubstAll(gs, pat, rep))
  {
  }

  /** A well-formed token other than `pat` is left alone by replacing `pat`. */
  lemma ReplaceOtherToken(t: string, pat: string, rep: string)
    requires WellFormedToken(t) && WellFormedToken(pat) && t != pat
    ensures Replace(t, pat, rep) == t
  {
    NoMatchInSegment(Tok(t), "", pat);
    assert t + "" == t;
    ReplaceAfterUnmatched(t, "", pat, rep);
  }

  lemma HandledTokensWellFormed()
    ensures WellFormedToken(MCP_DATA_DIR) && WellFormedToken(VERSION) && WellFormedToken(MAIN_CLASS)
    ensures WellFormedToken(FML_TWEAK_CLASS) && WellFormedToken(INSTALLER_VERSION) && WellFormedToken(FML_DIR)
    ensures WellFormedToken(FORGE_DIR) && WellFormedToken(BUKKIT_DIR) && WellFormedToken(FML_CONF_DIR)
  {
  }

  /**
   * The reference table of this layer: what each handled token finally
   * stands for. Both `{MCP_DATA_DIR}` and `{FML_CONF_DIR}` stand for the
   * FML directory's `conf` subdirectory.
   */
  function Substitution(token: string, ctx: Context): Option<string>
  {
    var ext := ctx.ext;
    if token == MCP_DATA_DIR || token == FML_CONF_DIR then Some(ext.fmlDir + "/conf")
    else if token == VERSION then Some(DisplayVersion(ctx.projectVersion, ext.version))
    else if token == MAIN_CLASS then Some(ext.mainClass)
    else if token == FML_TWEAK_CLASS then Some(ext.tweakClass)
    else if token == INSTALLER_VERSION then Some(ext.installerVersion)
    else if token == FML_DIR then Some(ext.fmlDir)
    else if token == FORGE_DIR then Some(ext.forgeDir)
    else if token == BUKKIT_DIR then Some(ext.bukkitDir)
    else None
  }

  /** No substituted value brings in a '{'. */
  predicate PlainValues(ctx: Context)
  {
    var ext := ctx.ext;
    '{' !in ctx.projectVersion && '{' !in ext.mainClass && '{' !in ext.tweakClass &&
    '{' !in ext.installerVersion && '{' !in ext.fmlDir && '{' !in ext.forgeDir && '{' !in ext.bukkitDir
  }

  /** A segment as the table says it resolves. */
  function Expected(g: Segment, ctx: Context): Segment
  {
    match g
    case Lit(_) => g
    case Tok(t) =>
      match Substitution(t, ctx)
      case Some(v) => Lit(v)
      case None => g
  }

  function ExpectedAll(gs: seq<Segment>, ctx: Context): (r: seq<Segment>)
    ensures |r| == |gs|
    ensures forall i :: 0 <= i < |gs| ==> r[i] == Expected(gs[i], ctx)
  {
    if gs == [] then [] else [Expected(gs[0], ctx)] + ExpectedAll(gs[1..], ctx)
  }

  lemma PlainDisplayVersion(ctx: Context)
    requires PlainValues(ctx)
    ensures '{' !in DisplayVersion(ctx.projectVersion, ctx.ext.version)
  {
  }

  /**
   * With plain values, the layer replaces every token segment by its table
   * entry, keeps unhandled tokens and literal text, and never produces text
   * that a later replacement picks up again.
   */
  lemma LayerMatchesTable(gs: seq<Segment>, ctx: Context)
    requires PlainValues(ctx) && ValidSegments(gs)
    ensures ResolveLayer(Flatten(gs), ctx) == Flatten(ExpectedAll(gs, ctx))
  {
    var ext := ctx.ext;
    var v := DisplayVersion(ctx.projectVersion, ext.version);
    HandledTokensWellFormed();
    PlainDisplayVersion(ctx);
    assert '{' !in ext.fmlDir + "/conf";
    var g1 := SubstAll(gs, MCP_DATA_DIR, FML_CONF_DIR);
    ReplaceSegments(gs, MCP_DATA_DIR, FML_CONF_DIR);
    SubstAllValid(gs, MCP_DATA_DIR, FML_CONF_DIR);
    var g2 := SubstAll(g1, VERSION, v);
    ReplaceSegments(g1, VERSION, v);
    SubstAllValid(g1, VERSION, v);
    var g3 := SubstAll(g2, MAIN_CLASS, ext.mainClass);
    ReplaceSegments(g2, MAIN_CLASS, ext.mainClass);
    SubstAllValid(g2, MAIN_CLASS, ext.mainClass);
    var g4 := SubstAll(g3, FML_TWEAK_CLASS, ext.tweakClass);
    ReplaceSegments(g3, FML_TWEAK_CLASS, ext.tweakClass);
    SubstAllValid(g3, FML_TWEAK_CLASS, ext.tweakClass);
    var g5 := SubstAll(g4, INSTALLER_VERSION, ext.installerVersion);
    ReplaceSegments(g4, INSTALLER_VERSION, ext.installerVersion);
    SubstAllValid(g4, INSTALLER_VERSION, ext.installerVersion);
    var g6 := SubstAll(g5, FML_DIR, ext.fmlDir);
    ReplaceSegments(g5, FML_DIR, ext.fmlDir);
    SubstAllValid(g5, FML_DIR, ext.fmlDir);
    var g7 := SubstAll(g6, FORGE_DIR, ext.forgeDir);
    ReplaceSegments(g6, FORGE_DIR, ext.forgeDir);
    SubstAllValid(g6, FORGE_DIR, ext.forgeDir);
    var g8 := SubstAll(g7, BUKKIT_DIR, ext.bukkitDir);
    ReplaceSegments(g7, BUKKIT_DIR, ext.bukkitDir);
    SubstAllValid(g7, BUKKIT_DIR, ext.bukkitDir);
    var g9 := SubstAll(g8, FML_CONF_DIR, ext.fmlDir + "/conf");
    ReplaceSegments(g8, FML_CONF_DIR, ext.fmlDir + "/conf");
    forall i | 0 <= i < |gs|
      ensures g9[i] == Expected(gs[i], ctx)
    {
      SegmentThroughLayer(gs[i], ctx);
      assert g9[i] == LayerSegment(gs[i], ctx);
    }
    assert g9 == ExpectedAll(gs, ctx);
  }

  /** The nine replacements of this layer, seen on one segment. */
  function LayerSegment(g: Segment, ctx: Context): Segment
  {
    var ext := ctx.ext;
    var g1 := Subst(g, MCP_DATA_DIR, FML_CONF_DIR);
    var g2 := Subst(g1, VERSION, DisplayVersion(ctx.projectVersion, ext.version));
    var g3 := Subst(g2, MAIN_CLASS, ext.mainClass);
    var g4 := Subst(g3, FML_TWEAK_CLASS, ext.tweakClass);
    var g5 := Subst(g4, INSTALLER_VERSION, ext.installerVersion);
    var g6 := Subst(g5, FML_DIR, ext.fmlDir);
    var g7 := Subst(g6, FORGE_DIR, ext.forgeDir);
    var g8 := Subst(g7, BUKKIT_DIR, ext.bukkitDir);
    Subst(g8, FML_CONF_DIR, ext.fmlDir + "/conf")
  }

  /** Each segment goes through the layer to its table entry. */
  lemma SegmentThroughLayer(g: Segment, ctx: Context)
    requires PlainValues(ctx) && ValidSegment(g)
    ensures LayerSegment(g, ctx) == Expected(g, ctx)
  {
    match g
    case Lit(_) =>
    case Tok(t) =>
      if t == MCP_DATA_DIR || t == FML_CONF_DIR {
        ConfDirThroughLayer(t, ctx);
      } else if Substitution(t, ctx).Some? {
        ValueTokenThroughLayer(t, ctx);
      } else {
        HandledTokensDistinct();
      }
  }

  /** Both directory tokens end up as the FML directory's `conf` subdirectory. */
  lemma ConfDirThroughLayer(t: string, ctx: Context)
    requires PlainValues(ctx)
    requires t == MCP_DATA_DIR || t == FML_CONF_DIR
    ensures LayerSegment(Tok(t), ctx) == Lit(ctx.ext.fmlDir + "/conf")
  {
    HandledTokensWellFormed();
    HandledTokensDistinct();
    assert Subst(Tok(t), MCP_DATA_DIR, FML_CONF_DIR) == Tok(FML_CONF_DIR);
    assert '{' !in ctx.ext.fmlDir + "/conf";
    PlainValue(FML_CONF_DIR, ctx.ext.fmlDir + "/conf");
  }

  /** The other handled tokens are replaced once, by plain text. */
  lemma ValueTokenThroughLayer(t: string, ctx: Context)
    requires PlainValues(ctx)
    requires t != MCP_DATA_DIR && t != FML_CONF_DIR && Substitution(t, ctx).Some?
    ensures LayerSegment(Tok(t), ctx) == Lit(Substitution(t, ctx).value)
  {
    var ext := ctx.ext;
    HandledTokensDistinct();
    PlainDisplayVersion(ctx);
    if t == VERSION {
      PlainValue(t, DisplayVersion(ctx.projectVersion, ext.version));
    } else if t == MAIN_CLASS {
      PlainValue(t, ext.mainClass);
    } else if t == FML_TWEAK_CLASS {
      PlainValue(t, ext.tweakClass);
    } else if t == INSTALLER_VERSION {
      PlainValue(t, ext.installerVersion);
    } else if t == FML_DIR {
      PlainValue(t, ext.fmlDir);
    } else if t == FORGE_DIR {
      PlainValue(t, ext.forgeDir);
    } else {
      PlainValue(t, ext.bukkitDir);
    }
  }

  /** A token replaced by plain text becomes literal text. */
  lemma PlainValue(t: string, v: string)
    requires '{' !in v
    ensures Subst(Tok(t), t, v) == Lit(v)
  {
    assert !WellFormedToken(v) by {
      if |v| >= 2 { assert v[0] in v; }
    }
  }

  lemma HandledTokensDistinct()
    ensures MCP_DATA_DIR != FML_CONF_DIR && VERSION != FML_DIR && MAIN_CLASS != BUKKIT_DIR
    ensures |MCP_DATA_DIR| == 14 && |VERSION| == 9 && |MAIN_CLASS| == 12 && |FML_TWEAK_CLASS| == 17
    ensures |INSTALLER_VERSION| == 19 && |FML_DIR| == 9 && |FORGE_DIR| == 11 && |BUKKIT_DIR| == 12
    ensures |FML_CONF_DIR| == 14
  {
    assert MCP_DATA_DIR[1] != FML_CONF_DIR[1];
    assert VERSION[1] != FML_DIR[1];
    assert MAIN_CLASS[1] != BUKKIT_DIR[1];
  }

  /** Resolving the result again changes nothing, when the values are plain. */
  lemma {:induction false} LayerIdempotent(gs: seq<Segment>, ctx: Context)
    requires PlainValues(ctx) && ValidSegments(gs)
    ensures ResolveLayer(ResolveLayer(Flatten(gs), ctx), ctx) == ResolveLayer(Flatten(gs), ctx)
  {
    var hs := ExpectedAll(gs, ctx);
    LayerMatchesTable(gs, ctx);
    PlainDisplayVersion(ctx);
    forall i | 0 <= i < |hs|
      ensures ValidSegment(hs[i]) && Expected(hs[i], ctx) == hs[i]
    {
      ExpectedIsFixed(gs[i], ctx);
    }
    LayerMatchesTable(hs, ctx);
    assert ExpectedAll(hs, ctx) == hs;
  }

  lemma ExpectedIsFixed(g: Segment, ctx: Context)
    requires PlainValues(ctx) && ValidSegment(g)
    ensures ValidSegment(Expected(g, ctx))
    ensures Expected(Expected(g, ctx), ctx) == Expected(g, ctx)
  {
    PlainDisplayVersion(ctx);
    assert '{' !in ctx.ext.fmlDir + "/conf";
  }

  /** None of the tokens this layer handles occurs in `p`. */
  predicate MentionsNoHandledToken(p: string)
  {
    !Occurs(p, MCP_DATA_DIR) && !Occurs(p, VERSION) && !Occurs(p, MAIN_CLASS) &&
    !Occurs(p, FML_TWEAK_CLASS) && !Occurs(p, INSTALLER_VERSION) && !Occurs(p, FML_DIR) &&
    !Occurs(p, FORGE_DIR) && !Occurs(p, BUKKIT_DIR) && !Occurs(p, FML_CONF_DIR)
  }

  /** A pattern with none of the handled tokens passes through this layer unchanged. */
  lemma LayerIdentity(p: string, ctx: Context)
    requires MentionsNoHandledToken(p)
    ensures ResolveLayer(p, ctx) == p
  {
    var ext := ctx.ext;
    ReplaceAbsent(p, MCP_DATA_DIR, FML_CONF_DIR);
    ReplaceAbsent(p, VERSION, DisplayVersion(ctx.projectVersion, ext.version));
    ReplaceAbsent(p, MAIN_CLASS, ext.mainClass);
    ReplaceAbsent(p, FML_TWEAK_CLASS, ext.tweakClass);
    ReplaceAbsent(p, INSTALLER_VERSION, ext.installerVersion);
    ReplaceAbsent(p, FML_DIR, ext.fmlDir);
    ReplaceAbsent(p, FORGE_DIR, ext.forgeDir);
    ReplaceAbsent(p, BUKKIT_DIR, ext.bukkitDir);
    ReplaceAbsent(p, FML_CONF_DIR, ext.fmlDir + "/conf");
  }

  /**
   * `{MCP_DATA_DIR}` always ends up as the FML `conf` directory, whatever
   * the other values are: it is rewritten to `{FML_CONF_DIR}` first, and no
   * replacement in between can touch that token.
   */
  lemma McpDataDirIsConfDir(ctx: Context)
    ensures ResolveLayer(MCP_DATA_DIR, ctx) == ctx.ext.fmlDir + "/conf"
  {
    var ext := ctx.ext;
    HandledTokensWellFormed();
    HandledTokensDistinct();
    ReplaceWhole(MCP_DATA_DIR, FML_CONF_DIR);
    ReplaceOtherToken(FML_CONF_DIR, VERSION, DisplayVersion(ctx.projectVersion, ext.version));
    ReplaceOtherToken(FML_CONF_DIR, MAIN_CLASS, ext.mainClass);
    ReplaceOtherToken(FML_CONF_DIR, FML_TWEAK_CLASS, ext.tweakClass);
    ReplaceOtherToken(FML_CONF_DIR, INSTALLER_VERSION, ext.installerVersion);
    ReplaceOtherToken(FML_CONF_DIR, FML_DIR, ext.fmlDir);
    ReplaceOtherToken(FML_CONF_DIR, FORGE_DIR, ext.forgeDir);
    ReplaceOtherToken(FML_CONF_DIR, BUKKIT_DIR, ext.bukkitDir);
    ReplaceWhole(FML_CONF_DIR, ext.fmlDir + "/conf");
  }

  /**
   * A value is not scanned by the replacements that ran before it: the FML
   * directory comes out verbatim, even when it holds `{VERSION}` or another
   * earlier token, as long as it holds none of the three later ones.
   */
  lemma EarlierTokensInValueKept(ctx: Context)
    requires !Occurs(ctx.ext.fmlDir, FORGE_DIR) && !Occurs(ctx.ext.fmlDir, BUKKIT_DIR)
    requires !Occurs(ctx.ext.fmlDir, FML_CONF_DIR)
    ensures ResolveLayer(FML_DIR, ctx) == ctx.ext.fmlDir
  {
    var ext := ctx.ext;
    HandledTokensWellFormed();
    HandledTokensDistinct();
    ReplaceOtherToken(FML_DIR, MCP_DATA_DIR, FML_CONF_DIR);
    ReplaceOtherToken(FML_DIR, VERSION, DisplayVersion(ctx.projectVersion, ext.version));
    ReplaceOtherToken(FML_DIR, MAIN_CLASS, ext.mainClass);
    ReplaceOtherToken(FML_DIR, FML_TWEAK_CLASS, ext.tweakClass);
    ReplaceOtherToken(FML_DIR, INSTALLER_VERSION, ext.installerVersion);
    ReplaceWhole(FML_DIR, ext.fmlDir);
    ReplaceAbsent(ext.fmlDir, FORGE_DIR, ext.forgeDir);
    ReplaceAbsent(ext.fmlDir, BUKKIT_DIR, ext.bukkitDir);
    ReplaceAbsent(ext.fmlDir, FML_CONF_DIR, ext.fmlDir + "/conf");
  }

  /**
   * A value is scanned by the replacements that run after it: a main class
   * written as `{FML_DIR}` comes out as the FML directory.
   */
  lemma LaterTokensInValueExpanded(ctx: Context)
    requires ctx.ext.mainClass == FML_DIR
    requires !Occurs(ctx.ext.fmlDir, FORGE_DIR) && !Occurs(ctx.ext.fmlDir, BUKKIT_DIR)
    requires !Occurs(ctx.ext.fmlDir, FML_CONF_DIR)
    ensures ResolveLayer(MAIN_CLASS, ctx) == ctx.ext.fmlDir
  {
    var ext := ctx.ext;
    HandledTokensWellFormed();
    HandledTokensDistinct();
    ReplaceOtherToken(MAIN_CLASS, MCP_DATA_DIR, FML_CONF_DIR);
    ReplaceOtherToken(MAIN_CLASS, VERSION, DisplayVersion(ctx.projectVersion, ext.version));
    ReplaceWhole(MAIN_CLASS, FML_DIR);
    ReplaceOtherToken(FML_DIR, FML_TWEAK_CLASS, ext.tweakClass);
    ReplaceOtherToken(FML_DIR, INSTALLER_VERSION, ext.installerVersion);
    ReplaceWhole(FML_DIR, ext.fmlDir);
    ReplaceAbsent(ext.fmlDir, FORGE_DIR, ext.forgeDir);
    ReplaceAbsent(ext.fmlDir, BUKKIT_DIR, ext.bukkitDir);
    ReplaceAbsent(ext.fmlDir, FML_CONF_DIR, ext.fmlDir + "/conf");
  }
}

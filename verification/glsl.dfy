/** How `src/main.rs` assembles the GLSL it compiles for each render pass: one
    sampler declaration per input, then header, samplers, the pass code and a
    footer chosen by the pass type. The header and footers are files the
    program bundles at build time; they are parameters here. */
module GlslSource {
  import opened Wrappers
  import Text
  import BrowserSchema

  // ---------------------------------------------------------------------------
  // The `ctype` -> GLSL sampler type map.

  /** Input kinds that are sampled as a 2D texture. */
  const Sampler2DKinds: set<string> :=
    {"texture", "buffer", "video", "webcam", "keyboard", "music", "musicstream", "mic"}

  /** Every input kind the program knows. */
  const KnownKinds: set<string> := Sampler2DKinds + {"volume", "cubemap"}

  /** The GLSL sampler type for an input kind; `None` is the "Unknown ctype" panic. */
  function GlslType(ctype: string): (r: Option<string>)
    ensures r.None? <==> ctype !in KnownKinds
    ensures r == Some("sampler2D") <==> ctype in Sampler2DKinds
    ensures r == Some("sampler3D") <==> ctype == "volume"
    ensures r == Some("samplerCube") <==> ctype == "cubemap"
  {
    match ctype
    case "texture" => Some("sampler2D")
    case "volume" => Some("sampler3D")
    case "cubemap" => Some("samplerCube")
    case "buffer" => Some("sampler2D")
    case "video" => Some("sampler2D")
    case "webcam" => Some("sampler2D")
    case "keyboard" => Some("sampler2D")
    case "music" => Some("sampler2D")
    case "musicstream" => Some("sampler2D")
    case "mic" => Some("sampler2D")
    case _ => None
  }

  /** A sampler type name is one word on one line. */
  predicate IsWord(s: string) {
    |s| > 0 && forall i :: 0 <= i < |s| ==> s[i] != ' ' && s[i] != '\n'
  }

  lemma GlslTypesAreWords(ctype: string)
    requires GlslType(ctype).Some?
    ensures IsWord(GlslType(ctype).value)
  {
  }

  // ---------------------------------------------------------------------------
  // The sampler block.

  /** One declaration: `uniform <type> iChannel<channel>;`. */
  datatype Decl = Decl(glslType: string, channel: nat)

  function DeclLine(d: Decl): string {
    "uniform " + d.glslType + " iChannel" + Text.NatToString(d.channel) + ";\n"
  }

  function UnknownCtype(ctype: string): Panic {
    Panic("Unknown ctype: " + ctype)
  }

  /** Input `i` is the first whose kind is unknown. */
  predicate FirstUnknown(inputs: seq<BrowserSchema.RenderPassInput>, i: nat) {
    && i < |inputs|
    && inputs[i].ctype !in KnownKinds
    && forall k :: 0 <= k < i ==> inputs[k].ctype in KnownKinds
  }

  /** The declaration each input asks for, in input order, or the panic for the
      first input whose kind is unknown. */
  function Decls(inputs: seq<BrowserSchema.RenderPassInput>): (r: Result<seq<Decl>, Panic>)
    ensures r.Ok? <==> forall i :: 0 <= i < |inputs| ==> inputs[i].ctype in KnownKinds
    ensures r.Ok? ==> |r.value| == |inputs| && forall i :: 0 <= i < |inputs| ==>
      r.value[i] == Decl(GlslType(inputs[i].ctype).value, inputs[i].channel)
    ensures r.Err? ==> exists i: nat :: FirstUnknown(inputs, i) && r.error == UnknownCtype(inputs[i].ctype)
    decreases |inputs|
  {
    if |inputs| == 0 then Ok([])
    else
      match GlslType(inputs[0].ctype)
      case None =>
        assert FirstUnknown(inputs, 0);
        Err(UnknownCtype(inputs[0].ctype))
      case Some(t) =>
        match Decls(inputs[1..])
        case Err(p) =>
          var j: nat :| FirstUnknown(inputs[1..], j) && p == UnknownCtype(inputs[1..][j].ctype);
          assert FirstUnknown(inputs, j + 1) by {
            forall k | 0 <= k < j + 1 ensures inputs[k].ctype in KnownKinds {
              if k > 0 { assert inputs[k] == inputs[1..][k - 1]; }
            }
          }
          Err(p)
        case Ok(rest) => Ok([Decl(t, inputs[0].channel)] + rest)
  }

  /** There is only one first unknown input. */
  lemma FirstUnknownUnique(inputs: seq<BrowserSchema.RenderPassInput>, i: nat, j: nat)
    requires FirstUnknown(inputs, i) && FirstUnknown(inputs, j)
    ensures i == j
  {
    assert forall k :: 0 <= k < i ==> inputs[k].ctype in KnownKinds;
    assert forall k :: 0 <= k < j ==> inputs[k].ctype in KnownKinds;
    assert inputs[i].ctype !in KnownKinds && inputs[j].ctype !in KnownKinds;
  }

  /** The panic names the first unknown kind: every input before it has a known kind. */
  lemma DeclsPanicIsFirst(inputs: seq<BrowserSchema.RenderPassInput>, i: nat)
    requires FirstUnknown(inputs, i)
    ensures Decls(inputs) == Err(UnknownCtype(inputs[i].ctype))
  {
    var j: nat :| FirstUnknown(inputs, j) && Decls(inputs).error == UnknownCtype(inputs[j].ctype);
    FirstUnknownUnique(inputs, i, j);
  }

  /** The `sampler_source` string: the declarations' lines, one after another. */
  function SamplerSource(inputs: seq<BrowserSchema.RenderPassInput>): Result<string, Panic> {
    var decls :- Decls(inputs);
    Ok(Text.Join(decls, DeclLine))
  }

  // ---------------------------------------------------------------------------
  // Reading a sampler block back: a reference parser for the lines above.

  /** The index of the first `c` in `s`, or `|s|` when there is none. */
  function IndexOf(s: string, c: char): (r: nat)
    ensures r <= |s|
    ensures forall i :: 0 <= i < r ==> s[i] != c
    ensures r < |s| ==> s[r] == c
    decreases |s|
  {
    if |s| == 0 then 0 else if s[0] == c then 0 else 1 + IndexOf(s[1..], c)
  }

  predicate AllDigits(s: string) {
    forall i :: 0 <= i < |s| ==> Text.IsDigit(s[i])
  }

  /** Parses `uniform <word> iChannel<digits>;` (without the newline). */
  function ParseDecl(line: string): Option<Decl> {
    if |line| < 8 || line[..8] != "uniform " then None
    else
      var rest := line[8..];
      var k := IndexOf(rest, ' ');
      var tail := rest[k..];
      if k == 0 || |tail| < 11 || tail[..9] != " iChannel" || tail[|tail| - 1] != ';' then None
      else
        var digits := tail[9..|tail| - 1];
        if AllDigits(digits) then Some(Decl(rest[..k], Text.DigitsValue(digits))) else None
  }

  /** Splits a block into newline-terminated lines and parses each one. */
  function ParseBlock(s: string): Option<seq<Decl>>
    decreases |s|
  {
    if |s| == 0 then Some([])
    else
      var k := IndexOf(s, '\n');
      if k == |s| then None
      else
        match ParseDecl(s[..k])
        case None => None
        case Some(d) =>
          match ParseBlock(s[k + 1..])
          case None => None
          case Some(rest) => Some([d] + rest)
  }

  /** The text of a declaration line without its newline. */
  function DeclBody(d: Decl): string {
    "uniform " + d.glslType + " iChannel" + Text.NatToString(d.channel) + ";"
  }

  lemma DeclLineSplit(d: Decl)
    ensures DeclLine(d) == DeclBody(d) + "\n"
  {
  }

  /** The part of a declaration line after the type. */
  lemma ChannelTailSplit(digits: string)
    ensures var tail := " iChannel" + digits + ";";
      |tail| == 10 + |digits| && tail[0] == ' ' && tail[..9] == " iChannel"
      && tail[9..|tail| - 1] == digits && tail[|tail| - 1] == ';'
  {
    var tail := " iChannel" + digits + ";";
    assert tail[..9] == " iChannel";
    assert tail[9..|tail| - 1] == digits;
  }

  /** A word followed by a space-led tail splits at its first space. */
  lemma WordSplit(t: string, tail: string)
    requires IsWord(t) && |tail| > 0 && tail[0] == ' '
    ensures IndexOf(t + tail, ' ') == |t|
    ensures (t + tail)[..|t|] == t && (t + tail)[|t|..] == tail
  {
    Text.SplitAt(t, tail);
    assert (t + tail)[|t|] == ' ';
  }

  /** The parser accepts a line once its pieces are located. */
  lemma ParseDeclOfParts(line: string, rest: string, t: string, tail: string, digits: string)
    requires |line| >= 8 && line[..8] == "uniform " && line[8..] == rest
    requires IndexOf(rest, ' ') == |t| && |t| > 0 && rest[..|t|] == t && rest[|t|..] == tail
    requires |tail| >= 11 && tail[..9] == " iChannel" && tail[|tail| - 1] == ';'
    requires tail[9..|tail| - 1] == digits && AllDigits(digits)
    ensures ParseDecl(line) == Some(Decl(t, Text.DigitsValue(digits)))
  {
  }

  /** A declaration line reads back as the declaration it was written from. */
  lemma ParseDeclLine(d: Decl)
    requires IsWord(d.glslType)
    ensures ParseDecl(DeclBody(d)) == Some(d)
  {
    var digits := Text.NatToString(d.channel);
    var tail := " iChannel" + digits + ";";
    var rest := d.glslType + tail;
    var line := DeclBody(d);
    assert line == "uniform " + rest;
    Text.SplitAt("uniform ", rest);
    assert line[..8] == "uniform " && line[8..] == rest;
    ChannelTailSplit(digits);
    WordSplit(d.glslType, tail);
    assert AllDigits(digits);
    ParseDeclOfParts(line, rest, d.glslType, tail, digits);
    Text.NatToStringRoundTrip(d.channel);
  }

  /** No newline occurs inside a declaration's text. */
  lemma DeclBodyHasNoNewline(d: Decl)
    requires IsWord(d.glslType)
    ensures forall i :: 0 <= i < |DeclBody(d)| ==> DeclBody(d)[i] != '\n'
  {
    var digits := Text.NatToString(d.channel);
    assert DeclBody(d) == "uniform " + d.glslType + (" iChannel" + digits + ";");
    forall i | 0 <= i < |DeclBody(d)|
      ensures DeclBody(d)[i] != '\n'
    {
      if 8 <= i < 8 + |d.glslType| {
        assert DeclBody(d)[i] == d.glslType[i - 8];
      } else if 8 + |d.glslType| + 9 <= i < |DeclBody(d)| - 1 {
        assert DeclBody(d)[i] == digits[i - 8 - |d.glslType| - 9];
      }
    }
  }

  /** Parsing one line off the front of a block. */
  lemma ParseBlockCons(d: Decl, rest: string)
    requires IsWord(d.glslType)
    ensures ParseBlock(DeclLine(d) + rest) ==
      match ParseBlock(rest) case None => None case Some(ds) => Some([d] + ds)
  {
    var body := DeclBody(d);
    var s := DeclLine(d) + rest;
    assert s == body + ("\n" + rest);
    DeclBodyHasNoNewline(d);
    Text.SplitAt(body, "\n" + rest);
    assert s[|body|] == '\n';
    assert IndexOf(s, '\n') == |body|;
    assert s[..|body|] == body;
    assert s[|body| + 1..] == rest;
    ParseDeclLine(d);
  }

  /** Every block of declaration lines parses back to its declarations, in order. */
  lemma {:induction false} ParseJoinedDecls(ds: seq<Decl>)
    requires forall i :: 0 <= i < |ds| ==> IsWord(ds[i].glslType)
    ensures ParseBlock(Text.Join(ds, DeclLine)) == Some(ds)
    decreases |ds|
  {
    if |ds| > 0 {
      ParseJoinedDecls(ds[1..]);
      ParseBlockCons(ds[0], Text.Join(ds[1..], DeclLine));
      assert [ds[0]] + ds[1..] == ds;
    }
  }

  /** The sampler block holds exactly one line per input, in input order, each
      with that input's sampler type and its own channel number; a channel
      without an input gets no line. */
  lemma SamplerBlockParses(inputs: seq<BrowserSchema.RenderPassInput>)
    requires SamplerSource(inputs).Ok?
    ensures var ds := ParseBlock(SamplerSource(inputs).value);
      ds.Some? && |ds.value| == |inputs| && forall i :: 0 <= i < |inputs| ==>
        ds.value[i] == Decl(GlslType(inputs[i].ctype).value, inputs[i].channel)
  {
    var ds := Decls(inputs).value;
    forall i | 0 <= i < |ds|
      ensures IsWord(ds[i].glslType)
    {
      GlslTypesAreWords(inputs[i].ctype);
    }
    ParseJoinedDecls(ds);
  }

  // ---------------------------------------------------------------------------
  // The full pass source.

  /** `shadertoy_header.glsl`, `shadertoy_image_footer.glsl` and
      `shadertoy_sound_footer.glsl`; those files are not part of this model. */
  datatype Snippets = Snippets(header: string, imageFooter: string, soundFooter: string)

  /** The footer a pass type selects: the sound footer for "sound", the image
      footer for every other type. */
  function Footer(passType: string, snippets: Snippets): string {
    match passType
    case "sound" => snippets.soundFooter
    case _ => snippets.imageFooter
  }

  lemma FooterChoice(passType: string, snippets: Snippets)
    requires snippets.soundFooter != snippets.imageFooter
    ensures Footer(passType, snippets) == snippets.soundFooter <==> passType == "sound"
    ensures Footer(passType, snippets) == snippets.imageFooter <==> passType != "sound"
  {
  }

  /** `format!("{}\n{}\n{}\n{}", header, samplers, code, footer)`. */
  function FullSource(snippets: Snippets, samplers: string, code: string, passType: string): (r: string)
    ensures |r| == |snippets.header| + |samplers| + |code| + |Footer(passType, snippets)| + 3
  {
    snippets.header + "\n" + samplers + "\n" + code + "\n" + Footer(passType, snippets)
  }

  /** Two strings joined by a newline. */
  lemma NewlineJoin(a: string, b: string)
    ensures var s := a + "\n" + b;
      |s| == |a| + 1 + |b| && s[..|a|] == a && s[|a|] == '\n' && s[|a| + 1..] == b
  {
    assert a + "\n" + b == a + ("\n" + b);
    Text.SplitAt(a, "\n" + b);
  }

  /** Each part sits at a fixed place in the full source, so the pass code is
      included verbatim and can be cut back out. */
  lemma FullSourceParts(snippets: Snippets, samplers: string, code: string, passType: string)
    ensures var r := FullSource(snippets, samplers, code, passType);
      var h := |snippets.header|;
      var c := h + 1 + |samplers| + 1;
      r[..h] == snippets.header && r[h] == '\n'
      && r[h + 1..c - 1] == samplers && r[c - 1] == '\n'
      && r[c..c + |code|] == code && r[c + |code|] == '\n'
      && r[c + |code| + 1..] == Footer(passType, snippets)
  {
    var footer := Footer(passType, snippets);
    var r := FullSource(snippets, samplers, code, passType);
    var y := snippets.header + "\n" + samplers;
    var x := y + "\n" + code;
    assert r == x + "\n" + footer;
    NewlineJoin(x, footer);
    NewlineJoin(y, code);
    NewlineJoin(snippets.header, samplers);
    assert r[..|x|] == x;
    assert r[..|y|] == y;
  }
}

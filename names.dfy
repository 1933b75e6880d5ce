/** Hand-written recognisers for the two name patterns of
    packages/build-tools/src/dax.ts: `SSH_TARGET_REGEX` (an optional user,
    a host and an optional port) and `DOCKER_IMAGE_NAME_REGEX` (a namespace,
    a name and an optional tag).  Each pattern is read as the set of
    renderings of well-formed parts; the parser finds those parts, and the
    round-trip lemmas show that it accepts exactly that set. */
module Names {
  import opened Common

  /** `[a-z0-9]+` separated by single characters of a separator class, as in
      `w+(?:s w+)*`: non-empty, no separator first, last or twice in a row. */
  predicate SeparatedRuns(s: string, word: char -> bool, sep: char -> bool) {
    && |s| > 0
    && !sep(s[0]) && !sep(s[|s| - 1])
    && (forall i :: 0 <= i < |s| ==> word(s[i]) || sep(s[i]))
    && (forall i :: 0 <= i < |s| - 1 ==> !(sep(s[i]) && sep(s[i + 1])))
  }

  // ---------------------------------------------------------------------
  // SSH targets
  // ---------------------------------------------------------------------

  datatype SshTarget = SshTarget(user: Option<string>, host: string, port: Option<string>)

  predicate IsUserChar(c: char) { IsAlnum(c) || c == '.' || c == '_' || c == '-' }
  predicate IsLabelChar(c: char) { IsAlnum(c) || c == '-' }
  predicate IsDot(c: char) { c == '.' }
  predicate IsHexOrColon(c: char) { IsDigit(c) || 'a' <= c <= 'f' || 'A' <= c <= 'F' || c == ':' }

  predicate ValidUser(u: string) { |u| > 0 && forall i :: 0 <= i < |u| ==> IsUserChar(u[i]) }

  /** `(?:[a-zA-Z0-9-]+\.)*[a-zA-Z0-9-]+`; the `localhost` and dotted-quad
      alternatives of the pattern are instances of this one. */
  predicate DottedHost(h: string) { SeparatedRuns(h, IsLabelChar, IsDot) }

  /** `\[[0-9a-fA-F:]+\]` */
  predicate BracketHost(h: string) {
    |h| >= 3 && h[0] == '[' && h[|h| - 1] == ']'
    && forall i :: 1 <= i < |h| - 1 ==> IsHexOrColon(h[i])
  }

  predicate ValidHost(h: string) { DottedHost(h) || BracketHost(h) }

  /** The port alternatives, one disjunct per alternative of the pattern:
      `6553[0-5]`, `655[0-2]\d`, `65[0-4]\d{2}`, `6[0-4]\d{3}`, `[1-5]?\d{1,4}`. */
  predicate ValidPort(p: string) {
    AllDigits(p) &&
    ( (|p| == 5 && p[..4] == "6553" && p[4] <= '5')
    || (|p| == 5 && p[..3] == "655" && p[3] <= '2')
    || (|p| == 5 && p[..2] == "65" && p[2] <= '4')
    || (|p| == 5 && p[0] == '6' && p[1] <= '4')
    || (1 <= |p| <= 4)
    || (|p| == 5 && '1' <= p[0] <= '5'))
  }

  predicate WellFormedTarget(t: SshTarget) {
    && (t.user.Some? ==> ValidUser(t.user.value))
    && ValidHost(t.host)
    && (t.port.Some? ==> ValidPort(t.port.value))
  }

  function RenderTarget(t: SshTarget): string {
    (if t.user.Some? then t.user.value + "@" else "")
    + t.host
    + (if t.port.Some? then ":" + t.port.value else "")
  }

  /** Splits the text after the user part into host and port: a bracketed
      host ends at the first `]`, any other host at the first `:`. */
  function SplitHostPort(rest: string): (r: Option<(string, Option<string>)>)
    ensures r.Some? ==> rest == r.value.0 + (if r.value.1.Some? then ":" + r.value.1.value else "")
  {
    if |rest| > 0 && rest[0] == '[' then
      match SplitAt(rest, ']')
      case None => None
      case Some((open, tail)) =>
        if tail == [] then Some((open + "]", None))
        else if tail[0] == ':' then
          assert tail == ":" + tail[1..];
          Some((open + "]", Some(tail[1..])))
        else None
    else
      match SplitAt(rest, ':')
      case None => Some((rest, None))
      case Some((host, port)) => Some((host, Some(port)))
  }

  /** `SSH_TARGET_REGEX.exec(s)`: the user, host and port groups of a match. */
  function ParseTarget(s: string): (r: Option<SshTarget>)
    ensures r.Some? ==> WellFormedTarget(r.value) && RenderTarget(r.value) == s
  {
    var userSplit := SplitAt(s, '@');
    var user := if userSplit.Some? then Some(userSplit.value.0) else None;
    var rest := if userSplit.Some? then userSplit.value.1 else s;
    var hostPort := SplitHostPort(rest);
    if hostPort.None? then None
    else
      var t := SshTarget(user, hostPort.value.0, hostPort.value.1);
      RenderTargetSplit(s, user, rest, t);
      if WellFormedTarget(t) then Some(t) else None
  }

  lemma RenderTargetSplit(s: string, user: Option<string>, rest: string, t: SshTarget)
    requires s == (if user.Some? then user.value + ['@'] else []) + rest
    requires rest == t.host + (if t.port.Some? then ":" + t.port.value else "")
    requires t.user == user
    ensures RenderTarget(t) == s
  {
  }

  /** `SSH_TARGET_REGEX.test(s)` */
  predicate IsSshTarget(s: string) { ParseTarget(s).Some? }

  /** The host group the frpc configuration connects to. */
  function TargetHost(s: string): (h: string)
    requires IsSshTarget(s)
    ensures ValidHost(h) && '@' !in h
  {
    var h := ParseTarget(s).value.host;
    HostChars(h);
    h
  }

  /** The host group of a rendered target is the target's own host. */
  lemma TargetHostOf(t: SshTarget)
    requires WellFormedTarget(t)
    ensures IsSshTarget(RenderTarget(t)) && TargetHost(RenderTarget(t)) == t.host
  {
    ParseRenderTarget(t);
  }

  /** A host holds no `@` and, unless bracketed, no `:`; a bracketed host
      holds its only `]` at the end. */
  lemma HostChars(h: string)
    requires ValidHost(h)
    ensures '@' !in h
    ensures DottedHost(h) ==> ':' !in h && h[0] != '['
    ensures BracketHost(h) ==> !DottedHost(h) && ']' !in h[..|h| - 1]
  {
    forall i | 0 <= i < |h| ensures h[i] != '@' {
    }
    if DottedHost(h) {
      forall i | 0 <= i < |h| ensures h[i] != ':' {
      }
    }
    if BracketHost(h) {
      assert h[0] == '[';
      forall i | 0 <= i < |h| - 1 ensures h[i] != ']' {
      }
      assert forall i :: 0 <= i < |h| - 1 ==> h[..|h| - 1][i] == h[i];
    }
  }

  lemma UserChars(u: string)
    requires ValidUser(u)
    ensures '@' !in u
  {
    forall i | 0 <= i < |u| ensures u[i] != '@' {
    }
  }

  lemma PortChars(p: string)
    requires ValidPort(p)
    ensures '@' !in p
  {
    forall i | 0 <= i < |p| ensures p[i] != '@' {
    }
  }

  lemma {:induction false} SplitHostPortRender(host: string, port: Option<string>)
    requires ValidHost(host) && (port.Some? ==> ValidPort(port.value))
    ensures SplitHostPort(host + (if port.Some? then ":" + port.value else "")) == Some((host, port))
  {
    var tail := if port.Some? then ":" + port.value else "";
    var rest := host + tail;
    HostChars(host);
    if BracketHost(host) {
      var open := host[..|host| - 1];
      assert rest == open + [']'] + tail;
      SplitAtFirst(open, ']', tail);
      assert open + "]" == host;
      if port.Some? {
        assert tail[1..] == port.value;
      }
    } else {
      assert rest[0] == host[0];
      if port.Some? {
        assert rest == host + [':'] + port.value;
        SplitAtFirst(host, ':', port.value);
      } else {
        assert rest == host;
      }
    }
  }

  /** The user part of a rendered target ends at its first `@`. */
  lemma {:induction false} SplitUserRender(t: SshTarget)
    requires WellFormedTarget(t)
    ensures SplitAt(RenderTarget(t), '@') ==
      if t.user.Some? then Some((t.user.value, HostPortText(t))) else None
  {
    var rest := HostPortText(t);
    HostChars(t.host);
    if t.port.Some? {
      PortChars(t.port.value);
    }
    assert '@' !in rest;
    if t.user.Some? {
      UserChars(t.user.value);
      assert RenderTarget(t) == t.user.value + ['@'] + rest;
      SplitAtFirst(t.user.value, '@', rest);
    } else {
      assert RenderTarget(t) == rest;
    }
  }

  function HostPortText(t: SshTarget): string {
    t.host + (if t.port.Some? then ":" + t.port.value else "")
  }

  /** Every well-formed target renders to a string the parser splits back
      into the same parts. */
  lemma {:induction false} ParseRenderTarget(t: SshTarget)
    requires WellFormedTarget(t)
    ensures ParseTarget(RenderTarget(t)) == Some(t)
  {
    var s := RenderTarget(t);
    RenderedUser(t);
    SplitHostPortRender(t.host, t.port);
  }

  /** Splitting a rendering at its first `@` gives back the user and the
      host-and-port text. */
  lemma RenderedUser(t: SshTarget)
    requires WellFormedTarget(t)
    ensures var s := RenderTarget(t); var userSplit := SplitAt(s, '@');
      && (if userSplit.Some? then userSplit.value.1 else s) == HostPortText(t)
      && (if userSplit.Some? then Some(userSplit.value.0) else None) == t.user
  {
    SplitUserRender(t);
  }

  /** The recogniser accepts exactly the renderings of well-formed targets. */
  lemma SshTargetLanguage(s: string)
    ensures IsSshTarget(s) <==> exists t :: WellFormedTarget(t) && RenderTarget(t) == s
  {
    if t :| WellFormedTarget(t) && RenderTarget(t) == s {
      ParseRenderTarget(t);
    }
  }

  lemma {:induction false} FiveDigits(p: string)
    requires |p| == 5 && AllDigits(p)
    ensures DecimalValue(p) == DigitValue(p[0]) * 10000 + DigitValue(p[1]) * 1000
                               + DigitValue(p[2]) * 100 + DigitValue(p[3]) * 10 + DigitValue(p[4])
  {
    assert p[..4][..3] == p[..3] && p[..3][..2] == p[..2] && p[..2][..1] == p[..1] && p[..1][..0] == [];
    assert DecimalValue(p) == DecimalValue(p[..4]) * 10 + DigitValue(p[4]);
    assert DecimalValue(p[..4]) == DecimalValue(p[..3]) * 10 + DigitValue(p[3]);
    assert DecimalValue(p[..3]) == DecimalValue(p[..2]) * 10 + DigitValue(p[2]);
    assert DecimalValue(p[..2]) == DecimalValue(p[..1]) * 10 + DigitValue(p[1]);
    assert DecimalValue(p[..1]) == DigitValue(p[0]);
  }

  /** The port alternatives admit exactly the one- to four-digit strings and
      the five-digit strings without a leading zero up to 65535. */
  lemma PortRange(p: string)
    requires AllDigits(p)
    ensures ValidPort(p) <==> 1 <= |p| <= 4 || (|p| == 5 && p[0] != '0' && DecimalValue(p) <= 65535)
  {
    if |p| == 5 {
      FiveDigits(p);
      assert p[..4] == "6553" <==> p[0] == '6' && p[1] == '5' && p[2] == '5' && p[3] == '3';
      assert p[..3] == "655" <==> p[0] == '6' && p[1] == '5' && p[2] == '5';
      assert p[..2] == "65" <==> p[0] == '6' && p[1] == '5';
    }
  }

  // ---------------------------------------------------------------------
  // Docker image names
  // ---------------------------------------------------------------------

  datatype ImageName = ImageName(namespace: string, name: string, tag: Option<string>)

  predicate IsLowerAlnum(c: char) { IsLower(c) || IsDigit(c) }
  predicate IsComponentSep(c: char) { c == '.' || c == '_' || c == '-' }
  predicate IsTagHead(c: char) { IsAlnum(c) || c == '_' }
  predicate IsTagChar(c: char) { IsAlnum(c) || c == '.' || c == '_' || c == '-' }

  /** `[a-z0-9]+(?:[._-][a-z0-9]+)*` */
  predicate Component(s: string) { SeparatedRuns(s, IsLowerAlnum, IsComponentSep) }

  /** `[a-zA-Z0-9_][a-zA-Z0-9._-]{0,127}` */
  predicate ValidTag(t: string) {
    1 <= |t| <= 128 && IsTagHead(t[0]) && forall i :: 1 <= i < |t| ==> IsTagChar(t[i])
  }

  predicate WellFormedImage(n: ImageName) {
    Component(n.namespace) && Component(n.name) && (n.tag.Some? ==> ValidTag(n.tag.value))
  }

  function RenderImage(n: ImageName): string {
    n.namespace + "/" + n.name + (if n.tag.Some? then ":" + n.tag.value else "")
  }

  /** `DOCKER_IMAGE_NAME_REGEX.exec(s)`: the namespace, name and tag groups.
      The namespace ends at the first `/` and the name at the next `:`. */
  function ParseImage(s: string): (r: Option<ImageName>)
    ensures r.Some? ==> WellFormedImage(r.value) && RenderImage(r.value) == s
  {
    var split := SplitAt(s, '/');
    if split.None? then None
    else
      var (namespace, rest) := split.value;
      var tagSplit := SplitAt(rest, ':');
      var n :=
        if tagSplit.None? then ImageName(namespace, rest, None)
        else ImageName(namespace, tagSplit.value.0, Some(tagSplit.value.1));
      RenderSplit(s, namespace, rest, tagSplit);
      if WellFormedImage(n) then Some(n) else None
  }

  lemma RenderSplit(s: string, namespace: string, rest: string, tagSplit: Option<(string, string)>)
    requires s == namespace + ['/'] + rest
    requires tagSplit.Some? ==> rest == tagSplit.value.0 + [':'] + tagSplit.value.1
    ensures tagSplit.None? ==> RenderImage(ImageName(namespace, rest, None)) == s
    ensures tagSplit.Some? ==> RenderImage(ImageName(namespace, tagSplit.value.0, Some(tagSplit.value.1))) == s
  {
  }

  /** `DOCKER_IMAGE_NAME_REGEX.test(s)` */
  predicate IsImageName(s: string) { ParseImage(s).Some? }

  lemma ComponentChars(s: string)
    requires Component(s)
    ensures '/' !in s && ':' !in s
  {
    forall i | 0 <= i < |s| ensures s[i] != '/' && s[i] != ':' {
    }
  }

  lemma {:induction false} ParseRenderImage(n: ImageName)
    requires WellFormedImage(n)
    ensures ParseImage(RenderImage(n)) == Some(n)
  {
    var tail := if n.tag.Some? then ":" + n.tag.value else "";
    ComponentChars(n.namespace);
    ComponentChars(n.name);
    assert RenderImage(n) == n.namespace + ['/'] + (n.name + tail);
    SplitAtFirst(n.namespace, '/', n.name + tail);
    if n.tag.Some? {
      assert n.name + tail == n.name + [':'] + n.tag.value;
      SplitAtFirst(n.name, ':', n.tag.value);
    } else {
      assert n.name + tail == n.name;
    }
  }

  /** The recogniser accepts exactly the renderings of well-formed names: a
      `namespace/` prefix is mandatory and a tag has at most 128 characters. */
  lemma ImageNameLanguage(s: string)
    ensures IsImageName(s) <==> exists n :: WellFormedImage(n) && RenderImage(n) == s
    ensures IsImageName(s) ==> '/' in s
  {
    if n :| WellFormedImage(n) && RenderImage(n) == s {
      ParseRenderImage(n);
    }
  }
}

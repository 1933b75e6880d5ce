/** packages/build-tools/src/rollup.ts, `dynamicRequireDependencies`: a
    `require(expr)` whose argument is built at run time is turned into a glob
    over the package's dependencies.  The expression is translated into a
    glob by structural recursion (a wildcard for every part whose value is
    unknown), the glob is filtered, and each accepted call gets a numbered
    helper that switches over the dependencies the glob matches. */
module Globs {
  import opened Common

  /** The expression forms the translation tells apart.  A literal carries
      the text of its value as JavaScript renders it in a template
      (`${node.value}`); `PrivateName` is a `#name`, which only occurs as the
      left operand of a binary expression. */
  datatype Expr =
    | Template(quasis: seq<string>, exprs: seq<Expr>)
    | Call(callee: Callee, args: seq<Expr>)
    | Binary(op: string, left: Expr, right: Expr)
    | Literal(text: string)
    | PrivateName
    | Other

  /** `x.concat(...)`, `super.concat(...)`, or any other callee. */
  datatype Callee = ConcatOn(target: Expr) | SuperConcat | OtherCallee

  datatype GlobError = StarInString | Unsupported(op: string)

  const Star := '*'

  /** The characters a glob treats specially (the `*` among them), and the
      backslash that escapes them. */
  predicate IsGlobSpecial(c: char) {
    c in "\\()*?[]{|}"
  }

  /** `fastGlob.escapePath`: a backslash before every glob-special character. */
  function Escape(s: string): (r: string)
    ensures |r| >= |s|
    ensures Star !in s ==> Star !in r
  {
    if s == [] then []
    else (if IsGlobSpecial(s[0]) then ['\\', s[0]] else [s[0]]) + Escape(s[1..])
  }

  /** Reads an escaped path back: a backslash makes the next character plain. */
  function Unescape(s: string): string
  {
    if s == [] then []
    else if s[0] == '\\' && |s| > 1 then [s[1]] + Unescape(s[2..])
    else [s[0]] + Unescape(s[1..])
  }

  /** Escaping loses nothing: the escaped text reads back as the original. */
  lemma {:induction false} UnescapeEscape(s: string)
    ensures Unescape(Escape(s)) == s
  {
    if s != [] {
      UnescapeEscape(s[1..]);
      var head := if IsGlobSpecial(s[0]) then ['\\', s[0]] else [s[0]];
      assert Escape(s) == head + Escape(s[1..]);
      if IsGlobSpecial(s[0]) {
        assert Escape(s)[2..] == Escape(s[1..]);
      } else {
        assert Escape(s)[1..] == Escape(s[1..]);
      }
    }
  }

  /** `sanitizeString` (lines 56-62): the empty string as is, an error for
      text holding a `*`, the escaped text otherwise. */
  function Sanitize(s: string): (r: Result<string, GlobError>)
    ensures r.Err? <==> Star in s
    ensures r.Err? ==> r.error == StarInString
    ensures r.Ok? ==> Star !in r.value && Unescape(r.value) == s
    ensures s == [] ==> r == Ok([])
  {
    if s == [] then Ok(s)
    else if Star in s then Err(StarInString)
    else UnescapeEscape(s); Ok(Escape(s))
  }

  /** Two translations in evaluation order: the first error wins, otherwise
      the texts are concatenated. */
  function AndThen(a: Result<string, GlobError>, b: Result<string, GlobError>): (r: Result<string, GlobError>)
    ensures r.Ok? <==> a.Ok? && b.Ok?
    ensures r.Ok? ==> r.value == a.value + b.value
    ensures a.Err? ==> r == a
  {
    if a.Err? then a else if b.Err? then b else Ok(a.value + b.value)
  }

  /** `expressionToGlob` (lines 88-98) with `callExpressionToGlob` (72-79)
      and `binaryExpressionToGlob` (80-87). */
  function ToGlob(e: Expr): Result<string, GlobError>
    decreases e, 0
  {
    match e
    case Template(quasis, exprs) => TemplateGlob(quasis, exprs)
    case Call(ConcatOn(target), args) => AndThen(ToGlob(target), ArgsGlob(args))
    case Call(SuperConcat, args) => AndThen(Ok([Star]), ArgsGlob(args))
    case Call(OtherCallee, _) => Ok([Star])
    case Binary(op, left, right) =>
      if op != "+" then Err(Unsupported(op))
      else if left.PrivateName? then AndThen(Ok([Star]), ToGlob(right))
      else AndThen(ToGlob(left), ToGlob(right))
    case Literal(text) => Sanitize(text)
    case PrivateName => Ok([Star])
    case Other => Ok([Star])
  }

  /** The arguments' globs joined with "". */
  function ArgsGlob(args: seq<Expr>): Result<string, GlobError>
    decreases args, 0
  {
    if args == [] then Ok([]) else AndThen(ToGlob(args[0]), ArgsGlob(args[1..]))
  }

  /** One round of `templateLiteralToGlob`'s loop: the quasi, then the
      expression at the same index when there is one. */
  function Piece(quasi: string, exprs: seq<Expr>): Result<string, GlobError>
    decreases exprs, 1
  {
    AndThen(Sanitize(quasi), if exprs == [] then Ok([]) else ToGlob(exprs[0]))
  }

  /** `templateLiteralToGlob`'s result: the pieces in order. */
  function TemplateGlob(quasis: seq<string>, exprs: seq<Expr>): Result<string, GlobError>
    decreases exprs, 2 + |quasis|
  {
    if quasis == [] then Ok([])
    else AndThen(Piece(quasis[0], exprs), TemplateGlob(quasis[1..], if exprs == [] then [] else exprs[1..]))
  }

  /** `exprs` without its first `i` elements, or empty when it is shorter. */
  function Drop(exprs: seq<Expr>, i: nat): seq<Expr> {
    if i <= |exprs| then exprs[i..] else []
  }

  lemma AndThenAssoc(a: Result<string, GlobError>, b: Result<string, GlobError>, c: Result<string, GlobError>)
    ensures AndThen(AndThen(a, b), c) == AndThen(a, AndThen(b, c))
  {
    if a.Ok? && b.Ok? && c.Ok? {
      assert (a.value + b.value) + c.value == a.value + (b.value + c.value);
    }
  }

  /** Peeling the piece at index `i` off a template's remaining glob. */
  lemma TemplateStep(quasis: seq<string>, exprs: seq<Expr>, i: nat)
    requires i < |quasis|
    ensures TemplateGlob(quasis[i..], Drop(exprs, i))
      == AndThen(AndThen(Sanitize(quasis[i]), if i < |exprs| then ToGlob(exprs[i]) else Ok([])),
                 TemplateGlob(quasis[i + 1..], Drop(exprs, i + 1)))
  {
    assert quasis[i..][1..] == quasis[i + 1..];
    assert (if Drop(exprs, i) == [] then [] else Drop(exprs, i)[1..]) == Drop(exprs, i + 1);
    assert i < |exprs| ==> Drop(exprs, i)[0] == exprs[i];
  }

  /** Appending a piece that succeeded to the text so far. */
  lemma AppendPiece(glob: string, quasi: Result<string, GlobError>, g: Result<string, GlobError>,
                    tail: Result<string, GlobError>, total: Result<string, GlobError>)
    requires quasi.Ok? && g.Ok? && AndThen(Ok(glob), AndThen(AndThen(quasi, g), tail)) == total
    ensures AndThen(Ok(glob + quasi.value + g.value), tail) == total
  {
    assert glob + (quasi.value + g.value) == glob + quasi.value + g.value;
    if tail.Ok? {
      assert (glob + quasi.value + g.value) + tail.value == glob + ((quasi.value + g.value) + tail.value);
    }
  }

  /** The loop's invariant holds again once the piece at index `i`
      succeeded and was appended. */
  lemma TemplateAdvances(quasis: seq<string>, exprs: seq<Expr>, i: nat, glob: string)
    requires i < |quasis|
    requires AndThen(Ok(glob), TemplateGlob(quasis[i..], Drop(exprs, i))) == TemplateGlob(quasis, exprs)
    requires Sanitize(quasis[i]).Ok? && (i < |exprs| ==> ToGlob(exprs[i]).Ok?)
    ensures var g := if i < |exprs| then ToGlob(exprs[i]).value else [];
      AndThen(Ok(glob + Sanitize(quasis[i]).value + g), TemplateGlob(quasis[i + 1..], Drop(exprs, i + 1)))
        == TemplateGlob(quasis, exprs)
  {
    TemplateStep(quasis, exprs, i);
    AppendPiece(glob, Sanitize(quasis[i]), if i < |exprs| then ToGlob(exprs[i]) else Ok([]),
      TemplateGlob(quasis[i + 1..], Drop(exprs, i + 1)), TemplateGlob(quasis, exprs));
  }

  /** Before the loop: nothing appended, the whole template ahead. */
  lemma TemplateStart(quasis: seq<string>, exprs: seq<Expr>)
    ensures AndThen(Ok(""), TemplateGlob(quasis[0..], Drop(exprs, 0))) == TemplateGlob(quasis, exprs)
  {
    assert quasis[0..] == quasis && Drop(exprs, 0) == exprs;
    assert TemplateGlob(quasis, exprs).Ok? ==> "" + TemplateGlob(quasis, exprs).value == TemplateGlob(quasis, exprs).value;
  }

  /** After the loop: the text appended is the template's glob. */
  lemma TemplateDone(quasis: seq<string>, exprs: seq<Expr>, glob: string)
    requires AndThen(Ok(glob), TemplateGlob(quasis[|quasis|..], Drop(exprs, |quasis|))) == TemplateGlob(quasis, exprs)
    ensures Ok(glob) == ToGlob(Template(quasis, exprs))
  {
    assert quasis[|quasis|..] == [];
    assert glob + [] == glob;
  }

  /** A piece that fails ends the whole template with its error. */
  lemma TemplateStops(quasis: seq<string>, exprs: seq<Expr>, i: nat, glob: string)
    requires i < |quasis|
    requires AndThen(Ok(glob), TemplateGlob(quasis[i..], Drop(exprs, i))) == TemplateGlob(quasis, exprs)
    ensures Sanitize(quasis[i]).Err? ==> TemplateGlob(quasis, exprs) == Sanitize(quasis[i])
    ensures Sanitize(quasis[i]).Ok? && i < |exprs| && ToGlob(exprs[i]).Err? ==> TemplateGlob(quasis, exprs) == ToGlob(exprs[i])
  {
    TemplateStep(quasis, exprs, i);
  }

  /** `templateLiteralToGlob` (lines 63-71): the loop that appends each quasi
      and the expression after it, stopping at the first error. */
  method TemplateLiteralToGlob(quasis: seq<string>, exprs: seq<Expr>) returns (r: Result<string, GlobError>)
    ensures r == ToGlob(Template(quasis, exprs))
  {
    var glob := "";
    var i := 0;
    TemplateStart(quasis, exprs);
    while i < |quasis|
      invariant 0 <= i <= |quasis|
      invariant AndThen(Ok(glob), TemplateGlob(quasis[i..], Drop(exprs, i))) == TemplateGlob(quasis, exprs)
    {
      var quasi := Sanitize(quasis[i]);
      if quasi.Err? {
        TemplateStops(quasis, exprs, i, glob);
        return quasi;
      }
      var g := if i < |exprs| then ToGlob(exprs[i]) else Ok([]);
      if g.Err? {
        TemplateStops(quasis, exprs, i, glob);
        return g;
      }
      TemplateAdvances(quasis, exprs, i, glob);
      glob := glob + quasi.value + g.value;
      i := i + 1;
    }
    TemplateDone(quasis, exprs, glob);
    r := Ok(glob);
  }

  /** How many of a template's expressions its loop reads: one per quasi. */
  function Used(quasis: seq<string>, exprs: seq<Expr>): (n: nat)
    ensures n <= |quasis| && n <= |exprs|
  {
    if |exprs| < |quasis| then |exprs| else |quasis|
  }

  /** Every part of the expression is known text: no wildcard is needed. */
  ghost predicate Static(e: Expr)
    decreases e, 0
  {
    match e
    case Template(quasis, exprs) => forall i :: 0 <= i < Used(quasis, exprs) ==> Static(exprs[i])
    case Call(ConcatOn(target), args) => Static(target) && StaticAll(args)
    case Call(_, _) => false
    case Binary(_, left, right) => !left.PrivateName? && Static(left) && Static(right)
    case Literal(_) => true
    case PrivateName => false
    case Other => false
  }

  ghost predicate StaticAll(exprs: seq<Expr>)
    decreases exprs, 1
  {
    forall i :: 0 <= i < |exprs| ==> Static(exprs[i])
  }

  /** A translated glob holds a wildcard exactly when some part of the
      expression is not known text. */
  lemma {:induction false} StarIffDynamic(e: Expr)
    requires ToGlob(e).Ok?
    ensures Star in ToGlob(e).value <==> !Static(e)
    decreases e, 0
  {
    match e
    case Template(quasis, exprs) => TemplateStar(quasis, exprs);
    case Call(ConcatOn(target), args) => StarIffDynamic(target); ArgsStar(args);
    case Call(SuperConcat, args) =>
    case Call(OtherCallee, _) =>
    case Binary(op, left, right) =>
      StarIffDynamic(right);
      if !left.PrivateName? {
        StarIffDynamic(left);
      }
    case Literal(_) =>
    case PrivateName =>
    case Other =>
  }

  lemma {:induction false} ArgsStar(args: seq<Expr>)
    requires ArgsGlob(args).Ok?
    ensures Star in ArgsGlob(args).value <==> !StaticAll(args)
    decreases args, 0
  {
    if args != [] {
      StarIffDynamic(args[0]);
      ArgsStar(args[1..]);
      assert forall i :: 1 <= i < |args| ==> args[i] == args[1..][i - 1];
    }
  }

  /** Only the expressions can put a wildcard into a template's glob: the
      quasis are sanitized. Expressions past the last quasi are never read. */
  lemma {:induction false} TemplateStar(quasis: seq<string>, exprs: seq<Expr>)
    requires TemplateGlob(quasis, exprs).Ok?
    ensures Star !in TemplateGlob(quasis, exprs).value <==> forall i :: 0 <= i < Used(quasis, exprs) ==> Static(exprs[i])
    decreases exprs, 2 + |quasis|
  {
    if quasis != [] {
      var rest := if exprs == [] then [] else exprs[1..];
      var p := Piece(quasis[0], exprs);
      TemplateStar(quasis[1..], rest);
      if exprs != [] {
        StarIffDynamic(exprs[0]);
        assert Star in p.value <==> !Static(exprs[0]);
        assert Used(quasis[1..], rest) == Used(quasis, exprs) - 1;
        assert forall i :: 0 <= i < Used(quasis[1..], rest) ==> rest[i] == exprs[i + 1];
        assert (forall i :: 0 <= i < Used(quasis, exprs) ==> Static(exprs[i]))
          <==> Static(exprs[0]) && forall i :: 0 <= i < Used(quasis[1..], rest) ==> Static(rest[i]) by {
          if Static(exprs[0]) && forall i :: 0 <= i < Used(quasis[1..], rest) ==> Static(rest[i]) {
            forall i | 0 <= i < Used(quasis, exprs) ensures Static(exprs[i]) {
              if i > 0 { assert exprs[i] == rest[i - 1]; }
            }
          }
        }
      } else {
        assert Star !in p.value;
      }
    }
  }

  /** `.replace(/\*\*\/g, "*")` (line 118): one left-to-right pass that
      turns each non-overlapping `**` into `*`. */
  function CollapseStars(s: string): (r: string)
    ensures |r| <= |s|
    ensures Star in r <==> Star in s
    ensures NoDoubleStar(s) ==> r == s
  {
    if |s| >= 2 && s[0] == Star && s[1] == Star then [Star] + CollapseStars(s[2..])
    else if s == [] then []
    else
      assert NoDoubleStar(s) ==> NoDoubleStar(s[1..]) by {
        if NoDoubleStar(s) {
          forall i | 0 <= i < |s| - 2
            ensures !(s[1..][i] == Star && s[1..][i + 1] == Star)
          {
            assert s[1..][i] == s[i + 1] && s[1..][i + 1] == s[i + 2];
          }
        }
      }
      [s[0]] + CollapseStars(s[1..])
  }

  /** No two wildcards in a row. */
  predicate NoDoubleStar(s: string) {
    forall i :: 0 <= i < |s| - 1 ==> !(s[i] == Star && s[i + 1] == Star)
  }

  /** A single pass leaves a run of three wildcards as two. */
  lemma OnePass()
    ensures CollapseStars("***") == "**"
  {
    assert CollapseStars("*") == "*";
  }

  /** The filter of line 119: a glob with no wildcard, the bare wildcard,
      and relative or absolute paths are left alone. */
  predicate Skipped(glob: string) {
    Star !in glob || glob == [Star] || StartsWith(glob, "/") || StartsWith(glob, "./") || StartsWith(glob, "../")
  }

  /** Lines 118-120: the glob a `require` argument is looked up with, if it
      is looked up at all. */
  function Accepted(arg: Expr): (r: Result<Option<string>, GlobError>)
    ensures r.Err? <==> ToGlob(arg).Err?
    ensures r.Ok? && r.value.Some? ==> Star in r.value.value && !Skipped(r.value.value)
  {
    match ToGlob(arg)
    case Err(err) => Err(err)
    case Ok(glob) =>
      var g := CollapseStars(glob);
      if Skipped(g) then Ok(None) else Ok(Some(g))
  }

  /** A `require` whose argument is known text is never rewritten. */
  lemma StaticSkipped(arg: Expr)
    requires Static(arg) && ToGlob(arg).Ok?
    ensures Accepted(arg) == Ok(None)
  {
    StarIffDynamic(arg);
  }

  /** A call visited by the walk: whether it calls the identifier `require`,
      its first argument when that is an expression, and the dependencies
      its glob matches and resolves to (picomatch and `this.resolve` are
      not part of this model). */
  datatype Site = Site(callsRequire: bool, firstArg: Option<Expr>, matched: seq<string>)

  /** The calls that advance the helper counter (lines 112-117). */
  predicate Counted(s: Site) {
    s.callsRequire && s.firstArg.Some?
  }

  function CountedBefore(sites: seq<Site>): (n: nat)
    ensures n <= |sites|
  {
    if sites == [] then 0 else CountedBefore(sites[..|sites| - 1]) + (if Counted(sites[|sites| - 1]) then 1 else 0)
  }

  /** A generated `switch` helper: the index of its call site, its number,
      the glob and the dependencies it dispatches on. */
  datatype Helper = Helper(site: nat, number: nat, glob: string, deps: seq<string>)

  datatype TransformError = GlobFailed(err: GlobError) | NoDependencies(glob: string)

  /** `__dynamicRequireDependencies<n>__`. */
  function HelperName(n: nat): string {
    "__dynamicRequireDependencies" + DecimalString(n) + "__"
  }

  /** Distinct numbers give distinct helper names. */
  lemma HelperNamesDistinct(m: nat, n: nat)
    requires HelperName(m) == HelperName(n)
    ensures m == n
  {
    var p := "__dynamicRequireDependencies";
    assert DecimalString(m) == HelperName(m)[|p|..|HelperName(m)| - 2];
    assert DecimalString(n) == HelperName(n)[|p|..|HelperName(n)| - 2];
    DecimalStringInjective(m, n);
  }

  /** What the walk decides for the site at index `k` when the counter
      stands at `number`: nothing, a helper, or an error that ends the
      transform. */
  function Decide(s: Site, k: nat, number: nat, errorWhenNone: bool): Result<Option<Helper>, TransformError>
    requires Counted(s)
  {
    match Accepted(s.firstArg.value)
    case Err(err) => Err(GlobFailed(err))
    case Ok(None) => Ok(None)
    case Ok(Some(glob)) =>
      if s.matched == [] then (if errorWhenNone then Err(NoDependencies(glob)) else Ok(None))
      else Ok(Some(Helper(k, number, glob, s.matched)))
  }

  /** The helpers of `sites[..k]` in walk order, or the first error. */
  function Helpers(sites: seq<Site>, k: nat, errorWhenNone: bool): Result<seq<Helper>, TransformError>
    requires k <= |sites|
  {
    if k == 0 then Ok([])
    else
      match Helpers(sites, k - 1, errorWhenNone)
      case Err(e) => Err(e)
      case Ok(hs) =>
        if !Counted(sites[k - 1]) then Ok(hs)
        else
          match Decide(sites[k - 1], k - 1, CountedBefore(sites[..k]) - 1, errorWhenNone)
          case Err(e) => Err(e)
          case Ok(None) => Ok(hs)
          case Ok(Some(h)) => Ok(hs + [h])
  }

  /** The walk in `transform` (lines 101-153): the counter starts at -1 and
      goes up for every `require` with an expression argument, whether or
      not a helper comes of it. */
  method Transform(sites: seq<Site>, errorWhenNone: bool) returns (r: Result<seq<Helper>, TransformError>)
    ensures r == Helpers(sites, |sites|, errorWhenNone)
  {
    var helpers: seq<Helper> := [];
    var count := -1;
    var k := 0;
    while k < |sites|
      invariant 0 <= k <= |sites|
      invariant count == CountedBefore(sites[..k]) - 1
      invariant Helpers(sites, k, errorWhenNone) == Ok(helpers)
    {
      assert sites[..k + 1][..k] == sites[..k];
      var s := sites[k];
      if s.callsRequire && s.firstArg.Some? {
        count := count + 1;
        var d := Decide(s, k, count, errorWhenNone);
        if d.Err? {
          HelpersStayFailed(sites, k + 1, |sites|, errorWhenNone);
          return Err(d.error);
        }
        if d.value.Some? {
          helpers := helpers + [d.value.value];
        }
      }
      k := k + 1;
    }
    assert sites[..k] == sites;
    r := Ok(helpers);
  }

  /** Once the walk has failed it stays failed with the same error. */
  lemma {:induction false} HelpersStayFailed(sites: seq<Site>, k: nat, j: nat, errorWhenNone: bool)
    requires k <= j <= |sites| && Helpers(sites, k, errorWhenNone).Err?
    ensures Helpers(sites, j, errorWhenNone) == Helpers(sites, k, errorWhenNone)
    decreases j - k
  {
    if k < j {
      HelpersStayFailed(sites, k, j - 1, errorWhenNone);
    }
  }

  /** Each helper sits at a counted call site before `k` and is numbered
      by how many counted calls precede that site. */
  lemma {:induction false} HelperNumbers(sites: seq<Site>, k: nat, errorWhenNone: bool)
    requires k <= |sites| && Helpers(sites, k, errorWhenNone).Ok?
    ensures var hs := Helpers(sites, k, errorWhenNone).value;
      forall j :: 0 <= j < |hs| ==>
        hs[j].site < k && Counted(sites[hs[j].site]) && hs[j].number == CountedBefore(sites[..hs[j].site])
  {
    if k > 0 {
      HelperNumbers(sites, k - 1, errorWhenNone);
      var h := HelpersStep(sites, k, errorWhenNone);
      var hs := Helpers(sites, k, errorWhenNone).value;
      var before := Helpers(sites, k - 1, errorWhenNone).value;
      forall j | 0 <= j < |hs|
        ensures hs[j].site < k && Counted(sites[hs[j].site]) && hs[j].number == CountedBefore(sites[..hs[j].site])
      {
        if j < |before| {
          assert hs[j] == before[j];
        }
      }
    }
  }

  /** One step of the walk: the site at `k - 1` adds at most one helper,
      placed at that site and numbered by the counted calls before it. */
  lemma HelpersStep(sites: seq<Site>, k: nat, errorWhenNone: bool) returns (h: Option<Helper>)
    requires 0 < k <= |sites| && Helpers(sites, k, errorWhenNone).Ok?
    ensures Helpers(sites, k - 1, errorWhenNone).Ok?
    ensures h.None? ==> Helpers(sites, k, errorWhenNone).value == Helpers(sites, k - 1, errorWhenNone).value
    ensures h.Some? ==>
      && Helpers(sites, k, errorWhenNone).value == Helpers(sites, k - 1, errorWhenNone).value + [h.value]
      && h.value.site == k - 1 && Counted(sites[k - 1])
      && h.value.number == CountedBefore(sites[..k - 1])
  {
    assert sites[..k][..k - 1] == sites[..k - 1];
    if Counted(sites[k - 1]) {
      var d := Decide(sites[k - 1], k - 1, CountedBefore(sites[..k]) - 1, errorWhenNone);
      h := d.value;
    } else {
      h := None;
    }
  }

  /** Later helpers come from later sites and carry larger numbers, so no
      two helpers share a name. */
  lemma {:induction false} HelperOrder(sites: seq<Site>, errorWhenNone: bool)
    requires Helpers(sites, |sites|, errorWhenNone).Ok?
    ensures var hs := Helpers(sites, |sites|, errorWhenNone).value;
      forall i, j :: 0 <= i < j < |hs| ==> hs[i].site < hs[j].site && hs[i].number < hs[j].number
  {
    var hs := Helpers(sites, |sites|, errorWhenNone).value;
    HelperNumbers(sites, |sites|, errorWhenNone);
    HelperSites(sites, |sites|, errorWhenNone);
    forall i, j | 0 <= i < j < |hs|
      ensures hs[i].number < hs[j].number
    {
      CountedMonotone(sites, hs[i].site + 1, hs[j].site);
      assert sites[..hs[i].site + 1][..hs[i].site] == sites[..hs[i].site];
    }
  }

  /** Helpers appear in the order of their call sites. */
  lemma {:induction false} HelperSites(sites: seq<Site>, k: nat, errorWhenNone: bool)
    requires k <= |sites| && Helpers(sites, k, errorWhenNone).Ok?
    ensures var hs := Helpers(sites, k, errorWhenNone).value;
      forall i, j :: 0 <= i < j < |hs| ==> hs[i].site < hs[j].site
  {
    if k > 0 {
      HelperSites(sites, k - 1, errorWhenNone);
      HelperNumbers(sites, k - 1, errorWhenNone);
    }
  }

  lemma {:induction false} CountedMonotone(sites: seq<Site>, i: nat, k: nat)
    requires i <= k <= |sites|
    ensures CountedBefore(sites[..i]) <= CountedBefore(sites[..k])
    decreases k - i
  {
    if i < k {
      CountedMonotone(sites, i, k - 1);
      assert sites[..k][..k - 1] == sites[..k - 1];
    }
  }
}

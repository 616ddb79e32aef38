/** `${VAR}` interpolation of configuration text (crates/roos-core/src/config.rs). */
module Interpolation {
  import opened Common

  newtype Byte = b: int | 0 <= b < 256

  /** UTF-8 text as its bytes: the offsets that errors report are byte offsets. */
  type Text = seq<Byte>

  /** The environment: a variable that is not set is absent. */
  type Env = map<Text, Text>

  const DOLLAR: Byte := 0x24
  const OPEN: Byte := 0x7B
  const CLOSE: Byte := 0x7D

  datatype ConfigError =
    | MissingEnvVar(name: Text)
    | MalformedPlaceholder(at: nat)

  /** The two bytes `${` stand at offset `i`. */
  predicate OpensAt(s: Text, i: int) {
    0 <= i && i + 1 < |s| && s[i] == DOLLAR && s[i + 1] == OPEN
  }

  /** No placeholder opens anywhere in `s`. */
  predicate Literal(s: Text) {
    forall i :: 0 <= i < |s| ==> !OpensAt(s, i)
  }

  /** The substring search for `${`. */
  function FindOpen(s: Text, from: nat := 0): (r: Option<nat>)
    requires from <= |s|
    ensures r.Some? ==> from <= r.value && OpensAt(s, r.value) && forall i | from <= i < r.value :: !OpensAt(s, i)
    ensures r.None? ==> forall i | from <= i < |s| :: !OpensAt(s, i)
    decreases |s| - from
  {
    if from == |s| then None
    else if OpensAt(s, from) then Some(from)
    else FindOpen(s, from + 1)
  }

  /** The search for `}`. */
  function FindClose(s: Text, from: nat := 0): (r: Option<nat>)
    requires from <= |s|
    ensures r.Some? ==> from <= r.value < |s| && s[r.value] == CLOSE && forall i | from <= i < r.value :: s[i] != CLOSE
    ensures r.None? ==> forall i | from <= i < |s| :: s[i] != CLOSE
    decreases |s| - from
  {
    if from == |s| then None
    else if s[from] == CLOSE then Some(from)
    else FindClose(s, from + 1)
  }

  // ── Specification ────────────────────────────────────────────────────────

  /** One placeholder with the literal text in front of it. */
  datatype Piece = Piece(lit: Text, name: Text)

  /** A piece as it is written in a configuration file. */
  function Written(p: Piece): Text {
    p.lit + [DOLLAR, OPEN] + p.name + [CLOSE]
  }

  /** How a text starts: without any placeholder, with one that is not closed,
      or with a piece that is followed by more text. */
  datatype Start =
    | Plain
    | Unclosed(lit: Text, rest: Text)
    | Placeholder(piece: Piece, rest: Text)

  ghost predicate StartsWith(s: Text, start: Start) {
    match start
    case Plain => Literal(s)
    case Unclosed(lit, rest) => Literal(lit) && CLOSE !in rest && s == lit + [DOLLAR, OPEN] + rest
    case Placeholder(p, rest) => Literal(p.lit) && CLOSE !in p.name && s == Written(p) + rest
  }

  lemma LiteralUpTo(s: Text, k: nat)
    requires k <= |s| && forall i | 0 <= i < k :: !OpensAt(s, i)
    ensures Literal(s[..k])
  {
    forall i | 0 <= i < k
      ensures !OpensAt(s[..k], i)
    {
      assert !OpensAt(s, i);
    }
  }

  function Scan(s: Text): (start: Start)
    ensures StartsWith(s, start)
  {
    match FindOpen(s)
    case None => Plain
    case Some(k) =>
      LiteralUpTo(s, k);
      var afterDollar := s[k + 2..];
      match FindClose(afterDollar)
      case None =>
        assert s == s[..k] + [DOLLAR, OPEN] + afterDollar;
        Unclosed(s[..k], afterDollar)
      case Some(close) =>
        var name := afterDollar[..close];
        assert s == s[..k] + [DOLLAR, OPEN] + name + [CLOSE] + afterDollar[close + 1..];
        Placeholder(Piece(s[..k], name), afterDollar[close + 1..])
  }

  /** What interpolating a text yields when `out` was produced from its first
      `consumed` bytes and the remaining bytes yield `r`. */
  function After(out: Text, consumed: nat, r: Result<Text, ConfigError>): Result<Text, ConfigError> {
    match r
    case Ok(text) => Ok(out + text)
    case Err(MalformedPlaceholder(at)) => Err(MalformedPlaceholder(consumed + at))
    case Err(MissingEnvVar(_)) => r
  }

  /** The meaning of interpolation, by recursion on the text. */
  function Expand(env: Env, s: Text): Result<Text, ConfigError>
    decreases |s|
  {
    var start := Scan(s);
    if start.Plain? then Ok(s)
    else if start.Unclosed? then Err(MalformedPlaceholder(|start.lit|))
    else if start.piece.name !in env then Err(MissingEnvVar(start.piece.name))
    else After(start.piece.lit + env[start.piece.name], |Written(start.piece)|, Expand(env, start.rest))
  }

  function Render(pieces: seq<Piece>): Text {
    if pieces == [] then [] else Written(pieces[0]) + Render(pieces[1..])
  }

  predicate WellFormed(pieces: seq<Piece>) {
    forall p :: p in pieces ==> Literal(p.lit) && CLOSE !in p.name
  }

  predicate AllSet(env: Env, pieces: seq<Piece>) {
    forall p :: p in pieces ==> p.name in env
  }

  /** Literals and values put side by side, values verbatim. */
  function Substitute(env: Env, pieces: seq<Piece>): Text
    requires AllSet(env, pieces)
  {
    if pieces == [] then [] else pieces[0].lit + env[pieces[0].name] + Substitute(env, pieces[1..])
  }

  // ── Implementation ───────────────────────────────────────────────────────

  method InterpolateEnvVars(env: Env, s: Text) returns (r: Result<Text, ConfigError>)
    ensures r == Expand(env, s)
  {
    hide Expand, After, Scan, FindOpen, FindClose;
    var out: Text := [];
    var rest := s;
    var found := FindOpen(rest);
    AfterNothing(Expand(env, s));
    while found.Some?
      invariant |rest| <= |s|
      invariant found == FindOpen(rest)
      invariant Expand(env, s) == After(out, |s| - |rest|, Expand(env, rest))
      decreases |rest|
    {
      var start := found.value;
      Advance(env, out, |s| - |rest|, rest, start);
      out := out + rest[..start];
      var afterDollar := rest[start + 2..];
      var close := FindClose(afterDollar);
      if close.None? {
        return Err(MalformedPlaceholder(|s| - |rest| + start));
      }
      var varName := afterDollar[..close.value];
      if varName !in env {
        return Err(MissingEnvVar(varName));
      }
      out := out + env[varName];
      rest := afterDollar[close.value + 1..];
      found := FindOpen(rest);
    }
    Finish(env, out, |s| - |rest|, rest);
    out := out + rest;
    return Ok(out);
  }

  /** One round of the loop, and its two failures. */
  lemma Advance(env: Env, out: Text, consumed: nat, rest: Text, start: nat)
    requires FindOpen(rest) == Some(start)
    ensures var afterDollar := rest[start + 2..];
            var close := FindClose(afterDollar);
            var r := After(out, consumed, Expand(env, rest));
            if close.None? then r == Err(MalformedPlaceholder(consumed + start))
            else
              var name := afterDollar[..close.value];
              if name !in env then r == Err(MissingEnvVar(name))
              else
                r == After(out + rest[..start] + env[name], consumed + start + close.value + 3,
                           Expand(env, afterDollar[close.value + 1..]))
  {
    hide Expand;
    var scanned := Scan(rest);
    ExpandStep(env, rest, scanned);
    if scanned.Placeholder? && scanned.piece.name in env {
      var p := scanned.piece;
      AfterAfter(out, consumed, p.lit + env[p.name], |Written(p)|, Expand(env, scanned.rest));
      AppendAssoc(out, p.lit, env[p.name]);
    }
  }

  lemma Finish(env: Env, out: Text, consumed: nat, rest: Text)
    requires FindOpen(rest) == None
    ensures After(out, consumed, Expand(env, rest)) == Ok(out + rest)
  {
    ExpandStep(env, rest, Plain);
  }

  lemma AfterNothing(r: Result<Text, ConfigError>)
    ensures After([], 0, r) == r
  {
    if r.Ok? {
      assert [] + r.value == r.value;
    }
  }

  // ── Laws ─────────────────────────────────────────────────────────────────

  lemma AppendAssoc(a: Text, b: Text, c: Text)
    ensures a + b + c == a + (b + c)
  {
  }

  lemma FindOpenIs(s: Text, k: nat)
    requires OpensAt(s, k) && forall i | 0 <= i < k :: !OpensAt(s, i)
    ensures FindOpen(s) == Some(k)
  {
  }

  lemma FindCloseIs(s: Text, k: nat)
    requires k < |s| && s[k] == CLOSE && forall i | 0 <= i < k :: s[i] != CLOSE
    ensures FindClose(s) == Some(k)
  {
  }

  /** A literal ends exactly where the placeholder behind it opens. */
  lemma LiteralThenOpen(s: Text, lit: Text, rest: Text)
    requires Literal(lit) && s == lit + [DOLLAR, OPEN] + rest
    ensures FindOpen(s) == Some(|lit|)
    ensures s[..|lit|] == lit && s[|lit| + 2..] == rest
  {
    forall i | 0 <= i < |lit|
      ensures !OpensAt(s, i)
    {
      assert !OpensAt(lit, i);
    }
    FindOpenIs(s, |lit|);
  }

  /** The start of a text is unique, so scanning finds it. */
  lemma ScanIs(s: Text, start: Start)
    requires StartsWith(s, start)
    ensures Scan(s) == start
  {
    match start {
      case Plain =>
      case Unclosed(lit, rest) =>
        LiteralThenOpen(s, lit, rest);
      case Placeholder(p, rest) =>
        var tail := p.name + [CLOSE] + rest;
        assert s == p.lit + [DOLLAR, OPEN] + tail;
        LiteralThenOpen(s, p.lit, tail);
        FindCloseIs(tail, |p.name|);
        assert tail[..|p.name|] == p.name && tail[|p.name| + 1..] == rest;
    }
  }

  /** One step of interpolation, for whichever way the text starts. */
  lemma ExpandStep(env: Env, s: Text, start: Start)
    requires StartsWith(s, start)
    ensures start.Plain? ==> Expand(env, s) == Ok(s)
    ensures start.Unclosed? ==> Expand(env, s) == Err(MalformedPlaceholder(|start.lit|))
    ensures start.Placeholder? ==>
              Expand(env, s) ==
              if start.piece.name !in env then Err(MissingEnvVar(start.piece.name))
              else After(start.piece.lit + env[start.piece.name], |Written(start.piece)|, Expand(env, start.rest))
  {
    ScanIs(s, start);
  }

  lemma AfterAfter(out1: Text, n1: nat, out2: Text, n2: nat, r: Result<Text, ConfigError>)
    ensures After(out1, n1, After(out2, n2, r)) == After(out1 + out2, n1 + n2, r)
  {
    if r.Ok? {
      assert out1 + (out2 + r.value) == out1 + out2 + r.value;
    }
  }

  /** Byte by byte: a text without `${` stands for itself; one that is not closed
      is malformed at its offset; a closed one stands for its variable, with the
      text in front of it verbatim and the rest interpolated in the same way. */
  lemma ExpandsAsWritten(env: Env, lit: Text, name: Text, rest: Text)
    requires forall i :: 0 <= i && i + 1 < |lit| ==> !(lit[i] == 0x24 && lit[i + 1] == 0x7B)
    requires forall i :: 0 <= i < |name| ==> name[i] != 0x7D
    ensures Expand(env, lit) == Ok(lit)
    ensures Expand(env, lit + [0x24, 0x7B] + name) == Err(MalformedPlaceholder(|lit|))
    ensures Expand(env, lit + [0x24, 0x7B] + name + [0x7D] + rest) ==
            if name !in env then Err(MissingEnvVar(name))
            else
              match Expand(env, rest)
              case Ok(text) => Ok(lit + env[name] + text)
              case Err(MalformedPlaceholder(at)) => Err(MalformedPlaceholder(|lit| + |name| + 3 + at))
              case Err(MissingEnvVar(other)) => Err(MissingEnvVar(other))
  {
    hide Expand;
    ExpandStep(env, lit, Plain);
    ExpandStep(env, lit + [0x24, 0x7B] + name, Unclosed(lit, name));
    var text := lit + [0x24, 0x7B] + name + [0x7D] + rest;
    assert text == Written(Piece(lit, name)) + rest;
    ExpandStep(env, text, Placeholder(Piece(lit, name), rest));
  }

  /** Any number of closed and set placeholders in front of a text only add
      their substitution in front of its result and shift its error offset. */
  lemma {:induction false} ExpandRendered(env: Env, pieces: seq<Piece>, rest: Text)
    requires WellFormed(pieces) && AllSet(env, pieces)
    ensures Expand(env, Render(pieces) + rest) ==
            After(Substitute(env, pieces), |Render(pieces)|, Expand(env, rest))
  {
    hide Expand, Scan, After;
    if pieces == [] {
      assert Render(pieces) + rest == rest;
      AfterNothing(Expand(env, rest));
    } else {
      var p, more := pieces[0], pieces[1..];
      var s' := Render(more) + rest;
      assert p in pieces;
      assert Render(pieces) + rest == Written(p) + s' by { AppendAssoc(Written(p), Render(more), rest); }
      ExpandStep(env, Render(pieces) + rest, Placeholder(p, s'));
      ExpandRendered(env, more, rest);
      AfterAfter(p.lit + env[p.name], |Written(p)|, Substitute(env, more), |Render(more)|, Expand(env, rest));
    }
  }

  /** Round trip: interpolating a rendered text puts literals and values side
      by side and never scans a value again, whatever bytes the values hold. */
  lemma RenderThenInterpolate(env: Env, pieces: seq<Piece>, tail: Text)
    requires WellFormed(pieces) && AllSet(env, pieces) && Literal(tail)
    ensures Expand(env, Render(pieces) + tail) == Ok(Substitute(env, pieces) + tail)
  {
    hide Expand, Scan;
    ExpandRendered(env, pieces, tail);
    ExpandStep(env, tail, Plain);
  }

  function NamesLength(pieces: seq<Piece>): nat {
    if pieces == [] then 0 else |pieces[0].name| + 3 + NamesLength(pieces[1..])
  }

  function ValuesLength(env: Env, pieces: seq<Piece>): nat
    requires AllSet(env, pieces)
  {
    if pieces == [] then 0 else |env[pieces[0].name]| + ValuesLength(env, pieces[1..])
  }

  /** Length law: every placeholder trades |name| + 3 bytes for its value. */
  lemma {:induction false} SubstituteLength(env: Env, pieces: seq<Piece>)
    requires AllSet(env, pieces)
    ensures |Substitute(env, pieces)| == |Render(pieces)| - NamesLength(pieces) + ValuesLength(env, pieces)
  {
    if pieces != [] {
      SubstituteLength(env, pieces[1..]);
    }
  }

  // ── What every outcome means, in terms of the text alone ─────────────────

  /** Behind closed and set placeholders, the text goes on as `start` says. */
  ghost predicate Reaches(env: Env, s: Text, pieces: seq<Piece>, rest: Text, start: Start) {
    WellFormed(pieces) && AllSet(env, pieces) && s == Render(pieces) + rest && StartsWith(rest, start)
  }

  /** The outcome that belongs to a text whose closed and set placeholders are
      `pieces`; a placeholder behind them is reported, never substituted. */
  ghost predicate Outcome(env: Env, r: Result<Text, ConfigError>, pieces: seq<Piece>, rest: Text, start: Start)
    requires AllSet(env, pieces)
  {
    match start
    case Plain => r == Ok(Substitute(env, pieces) + rest)
    case Unclosed(lit, _) => r == Err(MalformedPlaceholder(|Render(pieces)| + |lit|))
    case Placeholder(p, _) => p.name !in env && r == Err(MissingEnvVar(p.name))
  }

  /** Interpolation can stop at every way a text may go on. */
  lemma OutcomeOf(env: Env, s: Text, pieces: seq<Piece>, rest: Text, start: Start)
    requires Reaches(env, s, pieces, rest, start)
    requires start.Placeholder? ==> start.piece.name !in env
    ensures Outcome(env, Expand(env, s), pieces, rest, start)
  {
    hide Expand, Scan;
    ExpandRendered(env, pieces, rest);
    ExpandStep(env, rest, start);
  }

  lemma RenderCons(env: Env, s: Text, p: Piece, s': Text, pieces: seq<Piece>, rest: Text, start: Start)
    requires StartsWith(s, Placeholder(p, s')) && p.name in env
    requires Reaches(env, s', pieces, rest, start)
    ensures Reaches(env, s, [p] + pieces, rest, start)
  {
    assert ([p] + pieces)[1..] == pieces;
    AppendAssoc(Written(p), Render(pieces), rest);
  }

  /** Every text is a rendering of closed and set placeholders that goes on in one of three ways. */
  lemma {:induction false} Decompose(env: Env, s: Text) returns (pieces: seq<Piece>, rest: Text, start: Start)
    ensures Reaches(env, s, pieces, rest, start)
    ensures start.Placeholder? ==> start.piece.name !in env
    decreases |s|
  {
    start := Scan(s);
    if start.Placeholder? && start.piece.name in env {
      var p, s' := start.piece, start.rest;
      pieces, rest, start := Decompose(env, s');
      RenderCons(env, s, p, s', pieces, rest, start);
      pieces := [p] + pieces;
    } else {
      pieces, rest := [], s;
      assert Render([]) + s == s;
    }
  }

  /** Interpolation succeeds exactly on the texts that are a rendering of
      closed and set placeholders, and the result is their substitution. */
  lemma SucceedsExactly(env: Env, s: Text, out: Text)
    ensures Expand(env, s) == Ok(out) <==>
            exists pieces, rest :: Reaches(env, s, pieces, rest, Plain) && out == Substitute(env, pieces) + rest
  {
    hide Expand, Scan;
    var pieces, rest, start := Decompose(env, s);
    OutcomeOf(env, s, pieces, rest, start);
    if ps, re :| Reaches(env, s, ps, re, Plain) && out == Substitute(env, ps) + re {
      OutcomeOf(env, s, ps, re, Plain);
    }
  }

  /** A malformed placeholder is reported exactly at the `${` that nothing
      closes, and only when every placeholder to its left is closed and set. */
  lemma MalformedExactly(env: Env, s: Text, at: nat)
    ensures Expand(env, s) == Err(MalformedPlaceholder(at)) <==>
            exists pieces, lit, rest, tail ::
              Reaches(env, s, pieces, rest, Unclosed(lit, tail)) && at == |Render(pieces)| + |lit|
  {
    hide Expand, Scan;
    var pieces, rest, start := Decompose(env, s);
    OutcomeOf(env, s, pieces, rest, start);
    if Expand(env, s) == Err(MalformedPlaceholder(at)) {
      assert Reaches(env, s, pieces, rest, Unclosed(start.lit, start.rest));
    }
    if ps, lit, re, tail :| Reaches(env, s, ps, re, Unclosed(lit, tail)) && at == |Render(ps)| + |lit| {
      OutcomeOf(env, s, ps, re, Unclosed(lit, tail));
    }
  }

  /** The reported offset is that of a `${` in the original text with no `}` behind it. */
  lemma MalformedOffset(env: Env, s: Text, at: nat)
    requires Expand(env, s) == Err(MalformedPlaceholder(at))
    ensures OpensAt(s, at) && CLOSE !in s[at..]
  {
    MalformedExactly(env, s, at);
    hide Expand, Scan, Render;
    var pieces, lit, rest, tail :|
      Reaches(env, s, pieces, rest, Unclosed(lit, tail)) && at == |Render(pieces)| + |lit|;
    OpenBehind(s, Render(pieces), lit, tail);
  }

  lemma OpenBehind(s: Text, before: Text, lit: Text, tail: Text)
    requires s == before + (lit + [DOLLAR, OPEN] + tail)
    ensures OpensAt(s, |before| + |lit|)
    ensures CLOSE !in tail ==> CLOSE !in s[|before| + |lit|..]
  {
    assert s[|before| + |lit|..] == [DOLLAR, OPEN] + tail;
  }

  /** A missing variable is reported exactly for the leftmost placeholder whose
      name is unset, and only when every placeholder to its left is closed and set. */
  lemma MissingExactly(env: Env, s: Text, name: Text)
    ensures Expand(env, s) == Err(MissingEnvVar(name)) <==>
            name !in env &&
            exists pieces, lit, rest, tail :: Reaches(env, s, pieces, rest, Placeholder(Piece(lit, name), tail))
  {
    hide Expand, Scan;
    var pieces, rest, start := Decompose(env, s);
    OutcomeOf(env, s, pieces, rest, start);
    if Expand(env, s) == Err(MissingEnvVar(name)) {
      assert Reaches(env, s, pieces, rest, Placeholder(Piece(start.piece.lit, name), start.rest));
    }
    if name !in env {
      if ps, lit, re, tail :| Reaches(env, s, ps, re, Placeholder(Piece(lit, name), tail)) {
        OutcomeOf(env, s, ps, re, Placeholder(Piece(lit, name), tail));
      }
    }
  }

  // ── Concatenation ────────────────────────────────────────────────────────

  /** Cutting a text between `a` and `b` would cut a `${` in two. */
  predicate SplitsOpen(a: Text, b: Text) {
    a != [] && b != [] && a[|a| - 1] == DOLLAR && b[0] == OPEN
  }

  lemma JoinLiterals(lit: Text, l: Text)
    requires Literal(lit) && Literal(l) && !SplitsOpen(lit, l)
    ensures Literal(lit + l)
  {
    forall i | 0 <= i < |lit + l|
      ensures !OpensAt(lit + l, i)
    {
      if i < |lit| {
        assert !OpensAt(lit, i);
      } else {
        assert !OpensAt(l, i - |lit|);
      }
    }
  }

  /** A literal in front of a text changes only the literal that the text starts with. */
  lemma LiteralJoin(env: Env, lit: Text, b: Text)
    requires Literal(lit) && !SplitsOpen(lit, b)
    ensures Expand(env, lit + b) == After(lit, |lit|, Expand(env, b))
  {
    hide Expand, StartsWith, Written;
    var start := Scan(b);
    ExpandStep(env, b, start);
    match start {
      case Plain =>
        JoinPlain(lit, b);
        ExpandStep(env, lit + b, Plain);
      case Unclosed(l, rest) =>
        JoinUnclosed(lit, b, l, rest);
        ExpandStep(env, lit + b, Unclosed(lit + l, rest));
      case Placeholder(p, rest) =>
        JoinPiece(lit, b, p, rest);
        ExpandStep(env, lit + b, Placeholder(Piece(lit + p.lit, p.name), rest));
        if p.name in env {
          AfterAfter(lit, |lit|, p.lit + env[p.name], |Written(p)|, Expand(env, rest));
          AppendAssoc(lit, p.lit, env[p.name]);
        }
    }
  }

  lemma JoinPlain(lit: Text, b: Text)
    requires Literal(lit) && !SplitsOpen(lit, b) && StartsWith(b, Plain)
    ensures StartsWith(lit + b, Plain)
  {
    JoinLiterals(lit, b);
  }

  lemma JoinUnclosed(lit: Text, b: Text, l: Text, rest: Text)
    requires Literal(lit) && !SplitsOpen(lit, b) && StartsWith(b, Unclosed(l, rest))
    ensures StartsWith(lit + b, Unclosed(lit + l, rest))
  {
    assert l != [] ==> l[0] == b[0];
    JoinLiterals(lit, l);
    assert lit + b == lit + l + [DOLLAR, OPEN] + rest;
  }

  lemma JoinPiece(lit: Text, b: Text, p: Piece, rest: Text)
    requires Literal(lit) && !SplitsOpen(lit, b) && StartsWith(b, Placeholder(p, rest))
    ensures StartsWith(lit + b, Placeholder(Piece(lit + p.lit, p.name), rest))
    ensures |Written(Piece(lit + p.lit, p.name))| == |lit| + |Written(p)|
  {
    assert p.lit != [] ==> p.lit[0] == b[0];
    JoinLiterals(lit, p.lit);
    assert Written(Piece(lit + p.lit, p.name)) == lit + Written(p);
    AppendAssoc(lit, Written(p), rest);
  }

  /** Concatenation law: when `a` interpolates and the cut does not separate
      `$` from `{`, `a + b` yields both results side by side, or the error of
      `b` with its offset moved by |a|. */
  lemma Compositional(env: Env, a: Text, b: Text)
    requires Expand(env, a).Ok? && !SplitsOpen(a, b)
    ensures Expand(env, a + b) == After(Expand(env, a).value, |a|, Expand(env, b))
  {
    hide Expand, Scan;
    var pieces, tail, start := Decompose(env, a);
    OutcomeOf(env, a, pieces, tail, start);
    AppendAssoc(Render(pieces), tail, b);
    assert tail != [] ==> tail[|tail| - 1] == a[|a| - 1];
    ExpandRendered(env, pieces, tail + b);
    LiteralJoin(env, tail, b);
    AfterAfter(Substitute(env, pieces), |Render(pieces)|, tail, |tail|, Expand(env, b));
  }

  /** A missing variable in `a` is final: no continuation changes the report. */
  lemma MissingIsFinal(env: Env, a: Text, b: Text)
    requires Expand(env, a).Err? && Expand(env, a).error.MissingEnvVar?
    ensures Expand(env, a + b) == Expand(env, a)
  {
    hide Expand, Scan;
    var pieces, tail, start := Decompose(env, a);
    OutcomeOf(env, a, pieces, tail, start);
    AppendAssoc(Render(pieces), tail, b);
    AppendAssoc(Written(start.piece), start.rest, b);
    OutcomeOf(env, a + b, pieces, tail + b, Placeholder(start.piece, start.rest + b));
  }

  /** The side condition of the concatenation law is needed: `$` and `{` are
      both plain text, and `${` is a malformed placeholder. */
  lemma SplitOpenBreaksConcatenation(env: Env)
    ensures SplitsOpen([DOLLAR], [OPEN])
    ensures Expand(env, [DOLLAR]) == Ok([DOLLAR]) && Expand(env, [OPEN]) == Ok([OPEN])
    ensures Expand(env, [DOLLAR] + [OPEN]) == Err(MalformedPlaceholder(0))
  {
    ScanIs([DOLLAR], Plain);
    ScanIs([OPEN], Plain);
    ScanIs([DOLLAR] + [OPEN], Unclosed([], []));
  }
}

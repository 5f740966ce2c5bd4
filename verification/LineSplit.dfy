/** Splitting a line at a delimiter (parse_to in src/eval.c), as functions on strings.

    `Step` follows the scanner step by step but builds its output in a separate
    string; `Cut` is a plain nesting scan that knows nothing of the output.  The
    method in `ParseTo` does all of it inside one buffer. */
module LineSplit {
  import opened CString

  const STACK_LIMIT: nat := 32

  /** The flags of `eval` that the scanner looks at, with the global `space_compress`. */
  datatype Config = Config(spaceCompress: bool, noCompress: bool, strip: bool, stripEsc: bool,
                           stripLs: bool, stripTs: bool, stripAround: bool) {
    predicate Squeezes() { spaceCompress && !noCompress }
    predicate SkipsLead() { (spaceCompress || stripLs) && !noCompress }
    predicate TrimsEnd() { (spaceCompress || stripTs) && !noCompress }
    predicate TrimsAroundLead() { Squeezes() || stripLs }
    predicate TrimsAroundEnd() { Squeezes() || stripTs }
  }

  predicate Escape(c: char) {
    c == '\\' || c == '%'
  }

  predicate Closer(c: char) {
    c == ']' || c == ')'
  }

  /** A character that only the default case of the scanner handles. */
  predicate Ordinary(c: char) {
    !Escape(c) && !Closer(c) && c != '{'
  }

  // ---------------------------------------------------------------------
  // The stack of expected closers
  // ---------------------------------------------------------------------

  /** Unwind to the innermost `c`, if there is one. */
  function Unwind(stack: string, c: char): (r: string)
    ensures |r| <= |stack|
  {
    if stack == [] then []
    else if stack[|stack| - 1] == c then stack[..|stack| - 1]
    else Unwind(stack[..|stack| - 1], c)
  }

  function Push(stack: string, c: char): string {
    if |stack| < STACK_LIMIT then stack + [c] else stack
  }

  /** What an ordinary character does to the stack; an escaped `[` opens nothing. */
  function Open(stack: string, c: char, prev: char): string {
    if c == '[' && prev != ESC then Push(stack, ']')
    else if c == '(' then Push(stack, ')')
    else stack
  }

  /** The character before position `i`; in front of the line only an escape matters. */
  function Prev(t: string, i: nat, esc: bool): char
    requires i <= |t|
  {
    if i > 0 then t[i - 1] else if esc then ESC else ' '
  }

  // ---------------------------------------------------------------------
  // The reference scan
  // ---------------------------------------------------------------------

  /** The position behind the brace that closes `level` open ones, or the end of the line. */
  function BraceEnd(t: string, i: nat, level: nat): (r: nat)
    requires i <= |t|
    ensures i <= r <= |t|
    decreases |t| - i
  {
    if i == |t| || level == 0 then i
    else if Escape(t[i]) then BraceEnd(t, if i + 1 < |t| then i + 2 else i + 1, level)
    else if t[i] == '{' then BraceEnd(t, i + 1, level + 1)
    else if t[i] == '}' then BraceEnd(t, i + 1, level - 1)
    else BraceEnd(t, i + 1, level)
  }

  /** Is there a delimiter at `i`, with `stack` open? */
  predicate AtCut(t: string, i: nat, stack: string, delim: char)
    requires i < |t|
  {
    && t[i] == delim
    && (if Closer(t[i]) then t[i] !in stack else Ordinary(t[i]) && stack == [])
  }

  /** Where the line is cut, or its length when the delimiter does not occur outside
      braces, escapes and open brackets. */
  function Cut(t: string, i: nat, stack: string, delim: char, esc: bool): (r: nat)
    requires i <= |t|
    ensures i <= r <= |t|
    decreases |t| - i
  {
    if i == |t| || AtCut(t, i, stack, delim) then i
    else if Escape(t[i]) then Cut(t, if i + 1 < |t| then i + 2 else i + 1, stack, delim, esc)
    else if Closer(t[i]) then Cut(t, i + 1, if t[i] in stack then Unwind(stack, t[i]) else stack, delim, esc)
    else if t[i] == '{' then Cut(t, BraceEnd(t, i + 1, 1), stack, delim, esc)
    else Cut(t, i + 1, Open(stack, t[i], Prev(t, i, esc)), delim, esc)
  }

  // ---------------------------------------------------------------------
  // The scanner with its output
  // ---------------------------------------------------------------------

  /** Read position, text written so far, whether only blanks were seen, open brackets. */
  datatype Scan = Scan(i: nat, out: string, first: bool, stack: string)

  datatype Brace = Brace(i: nat, out: string, level: nat)

  function BraceStep(t: string, cfg: Config, b: Brace): (r: Brace)
    requires b.i < |t| && b.level > 0
    ensures b.i <= r.i <= |t| && (r.i > b.i || r.level == 0)
  {
    var c := t[b.i];
    if Escape(c) then
      if b.i + 1 < |t| then
        Brace(b.i + 2, b.out + (if c == '\\' && cfg.stripEsc then [] else [c]) + [t[b.i + 1]], b.level)
      else Brace(b.i + 1, b.out + [c], b.level)
    else if c == '{' then Brace(b.i + 1, b.out + [c], b.level + 1)
    else if c == '}' then
      if b.level > 1 then Brace(b.i + 1, b.out + [c], b.level - 1) else Brace(b.i, b.out, 0)
    else Brace(b.i + 1, b.out + [c], b.level)
  }

  function BraceRun(t: string, cfg: Config, b: Brace): (r: Brace)
    requires b.i <= |t|
    ensures b.i <= r.i <= |t| && (r.level == 0 || r.i == |t|)
    decreases |t| - b.i, b.level
  {
    if b.i == |t| || b.level == 0 then b else BraceRun(t, cfg, BraceStep(t, cfg, b))
  }

  function BraceGroup(t: string, cfg: Config, s: Scan): (r: Scan)
    requires s.i < |t| && t[s.i] == '{'
    ensures s.i < r.i <= |t| || r.i == |t|
  {
    var b := BraceRun(t, cfg, Brace(s.i + 1, if cfg.strip then s.out else s.out + ['{'], 1));
    if b.level == 0 && b.i < |t| then Scan(b.i + 1, if cfg.strip then b.out else b.out + [t[b.i]], false, s.stack)
    else Scan(b.i, b.out, false, s.stack)
  }

  function Shrink(s: string): string {
    if s == [] then s else s[..|s| - 1]
  }

  /** One turn of the main loop, not at a cut. */
  function Step(t: string, cfg: Config, esc: bool, s: Scan): (r: Scan)
    requires s.i < |t|
    ensures s.i < r.i <= |t|
  {
    var c := t[s.i];
    if Escape(c) then
      var out := if c == '\\' && cfg.stripEsc then s.out else s.out + [c];
      if s.i + 1 < |t| then Scan(s.i + 2, out + [t[s.i + 1]], false, s.stack)
      else Scan(s.i + 1, out, false, s.stack)
    else if Closer(c) then
      Scan(s.i + 1, s.out + [c], false, if c in s.stack then Unwind(s.stack, c) else s.stack)
    else if c == '{' then BraceGroup(t, cfg, s)
    else
      var out := if c == ' ' && cfg.Squeezes() && !s.first && s.i > 0 && t[s.i - 1] == ' ' then Shrink(s.out) else s.out;
      Scan(s.i + 1, out + [c], s.first && c == ' ', Open(s.stack, c, Prev(t, s.i, esc)))
  }

  function Scanned(t: string, cfg: Config, delim: char, esc: bool, s: Scan): (r: Scan)
    requires s.i <= |t|
    ensures s.i <= r.i <= |t|
    ensures r.i < |t| ==> AtCut(t, r.i, r.stack, delim)
    decreases |t| - s.i
  {
    if s.i == |t| || AtCut(t, s.i, s.stack, delim) then s
    else Scanned(t, cfg, delim, esc, Step(t, cfg, esc, s))
  }

  // ---------------------------------------------------------------------
  // The ends of the piece
  // ---------------------------------------------------------------------

  function SkipLead(t: string, i: nat): (r: nat)
    requires i <= |t|
    ensures i <= r <= |t| && (forall j :: i <= j < r ==> IsSpace(t[j])) && (r < |t| ==> !IsSpace(t[r]))
    decreases |t| - i
  {
    if i < |t| && IsSpace(t[i]) then SkipLead(t, i + 1) else i
  }

  function TrimLead(s: string): string {
    if s != [] && IsSpace(s[0]) then TrimLead(s[1..]) else s
  }

  function TrimEnd(s: string): string {
    if s != [] && IsSpace(s[|s| - 1]) then TrimEnd(s[..|s| - 1]) else s
  }

  predicate Braced(s: string) {
    |s| >= 2 && s[0] == '{' && s[|s| - 1] == '}'
  }

  function Inside(cfg: Config, mid: string): string {
    var m1 := if cfg.TrimsAroundLead() then TrimLead(mid) else mid;
    if cfg.TrimsAroundEnd() then TrimEnd(m1) else m1
  }

  /** Without its enclosing braces, when asked. */
  function Around(cfg: Config, out: string): string {
    if cfg.stripAround && Braced(out) then Inside(cfg, out[1..|out| - 1]) else out
  }

  /** `parse_to_cleanup`: drop a trailing blank and, when asked, enclosing braces. */
  function Finish(t: string, cfg: Config, s: Scan): string
    requires s.i <= |t|
  {
    Around(cfg, if cfg.TrimsEnd() && !s.first && s.i > 0 && t[s.i - 1] == ' ' then Shrink(s.out) else s.out)
  }

  function LeadOf(t: string, cfg: Config): (r: nat)
    ensures r <= |t|
  {
    if cfg.SkipsLead() then SkipLead(t, 0) else 0
  }

  function Parsed(t: string, cfg: Config, delim: char, esc: bool): (r: Scan)
    ensures r.i <= |t|
  {
    Scanned(t, cfg, delim, esc, Scan(LeadOf(t, cfg), [], true, []))
  }

  /** The piece in front of the delimiter, as the caller gets it. */
  function Piece(t: string, cfg: Config, delim: char, esc: bool): string {
    Finish(t, cfg, Parsed(t, cfg, delim, esc))
  }

  // ---------------------------------------------------------------------
  // Argument lists (parse_arglist)
  // ---------------------------------------------------------------------

  const PLAIN: Config := Config(false, false, false, false, false, false, false)

  /** Split `t` into at most `n` pieces at commas; the last of `n` takes all that is left. */
  function Args(t: string, cfg: Config, n: nat, esc: bool): (r: seq<string>)
    requires n > 0
    ensures 0 < |r| <= n
    decreases n
  {
    if n == 1 then [Piece(t, cfg, '\0', esc)]
    else
      var c := Parsed(t, cfg, ',', esc).i;
      [Piece(t, cfg, ',', esc)] + if c == |t| then [] else Args(t[c + 1..], cfg, n - 1, false)
  }

  function Join(ss: seq<string>): string {
    if ss == [] then []
    else if |ss| == 1 then ss[0]
    else ss[0] + [','] + Join(ss[1..])
  }
}

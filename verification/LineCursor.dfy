/** What the write cursor of parse_to relies on when it looks behind itself. */
module LineCursor {
  import opened CString
  import opened LineSplit

  predicate EndsBlank(s: string) {
    s != [] && s[|s| - 1] == ' '
  }

  /** A blank just read is a blank just written; only a brace or a lone escape leaves
      the output empty after something was read. */
  predicate Tracks(t: string, cfg: Config, s: Scan) {
    && LeadOf(t, cfg) <= s.i <= |t| && NulFree(s.out)
    && (!s.first ==> s.i > LeadOf(t, cfg))
    && (s.i > LeadOf(t, cfg) && t[s.i - 1] == ' ' ==> EndsBlank(s.out))
    && (!cfg.strip && s.out == [] && s.i > LeadOf(t, cfg) ==> t[LeadOf(t, cfg)] == '\\')
    && (cfg.Squeezes() && s.first ==> s.i == LeadOf(t, cfg))
    && |s.stack| <= STACK_LIMIT
  }

  lemma {:induction false} BraceTracks(t: string, cfg: Config, b: Brace, k: nat)
    requires b.i <= |t| && NulFree(t) && NulFree(b.out) && k < b.i && (t[b.i - 1] == ' ' ==> EndsBlank(b.out))
    ensures var r := BraceRun(t, cfg, b);
      NulFree(r.out) && (t[r.i - 1] == ' ' ==> EndsBlank(r.out)) && |b.out| <= |r.out|
      && (b.level > 0 && r.level == 0 ==> r.i < |t| && t[r.i] == '}')
    decreases |t| - b.i, b.level
  {
    if b.i < |t| && b.level > 0 { BraceTracks(t, cfg, BraceStep(t, cfg, b), k); }
  }

  lemma BraceStepTracks(t: string, cfg: Config, s: Scan)
    requires Tracks(t, cfg, s) && NulFree(t) && s.i < |t| && t[s.i] == '{'
    ensures Tracks(t, cfg, BraceGroup(t, cfg, s))
  {
    hide BraceRun, NulFree;
    var b := Brace(s.i + 1, if cfg.strip then s.out else s.out + ['{'], 1);
    assert NulFree(b.out) by { OpenNulFree(s.out); }
    BraceTracks(t, cfg, b, s.i);
    var r := BraceRun(t, cfg, b);
    if r.level == 0 { CloseNulFree(r.out); }
  }

  lemma OpenNulFree(s: string)
    requires NulFree(s)
    ensures NulFree(s + ['{'])
  {}

  lemma CloseNulFree(s: string)
    requires NulFree(s)
    ensures NulFree(s + ['}'])
  {}

  lemma EscapeTracks(t: string, cfg: Config, esc: bool, s: Scan)
    requires Tracks(t, cfg, s) && NulFree(t) && s.i < |t| && Escape(t[s.i])
    ensures Tracks(t, cfg, Step(t, cfg, esc, s))
  {}

  lemma StepTracks(t: string, cfg: Config, esc: bool, s: Scan)
    requires Tracks(t, cfg, s) && NulFree(t) && s.i < |t|
    ensures Tracks(t, cfg, Step(t, cfg, esc, s))
  {
    hide BraceGroup;
    if t[s.i] == '{' {
      BraceStepTracks(t, cfg, s);
    } else if Escape(t[s.i]) {
      EscapeTracks(t, cfg, esc, s);
    } else {
      OrdinaryTracks(t, cfg, esc, s);
    }
  }

  lemma OrdinaryTracks(t: string, cfg: Config, esc: bool, s: Scan)
    requires Tracks(t, cfg, s) && NulFree(t) && s.i < |t| && t[s.i] != '{' && !Escape(t[s.i])
    ensures Tracks(t, cfg, Step(t, cfg, esc, s))
  {
    hide BraceGroup;
  }
}

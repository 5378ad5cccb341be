/** Go's view of white space in text. */
module Texts {

  /** unicode.IsSpace */
  predicate IsSpace(c: char) {
    || c in "\t\n\U{b}\U{c}\r "
    || c == '\U{85}' || c == '\U{a0}' || c == '\U{1680}' || '\U{2000}' <= c <= '\U{200a}'
    || c == '\U{2028}' || c == '\U{2029}' || c == '\U{202f}' || c == '\U{205f}' || c == '\U{3000}'
  }

  /** strings.TrimSpace */
  function TrimSpace(s: string): (r: string)
    ensures Tight(r) && |r| <= |s|
    decreases |s|
  {
    if s == "" then s
    else if IsSpace(s[0]) then TrimSpace(s[1..])
    else if IsSpace(s[|s| - 1]) then TrimSpace(s[..|s| - 1])
    else s
  }

  predicate Tight(s: string) {
    s == "" || (!IsSpace(s[0]) && !IsSpace(s[|s| - 1]))
  }

  lemma TrimmingTight(s: string)
    requires Tight(s)
    ensures TrimSpace(s) == s
  {
  }

  predicate Blank(s: string) {
    forall c | c in s :: IsSpace(c)
  }

  /** What trimming leaves is the text between the outermost spaces. */
  lemma {:induction false} TrimmedIsTheMiddle(s: string) returns (before: string, after: string)
    ensures Blank(before) && Blank(after) && s == before + TrimSpace(s) + after
    decreases |s|
  {
    hide IsSpace, Blank;
    BlankEnds(s);
    if s == "" {
      before, after := "", "";
    } else if IsSpace(s[0]) {
      before, after := TrimmedIsTheMiddle(s[1..]);
      Between(s[..1], before, TrimSpace(s), after, "");
      BlankTogether(s[..1], before);
      before := s[..1] + before;
      assert s == s[..1] + s[1..] + "";
    } else if IsSpace(s[|s| - 1]) {
      before, after := TrimmedIsTheMiddle(s[..|s| - 1]);
      Between("", before, TrimSpace(s), after, s[|s| - 1..]);
      BlankTogether(after, s[|s| - 1..]);
      after := after + s[|s| - 1..];
      assert s == "" + s[..|s| - 1] + s[|s| - 1..] && "" + before == before;
    } else {
      before, after := "", "";
      assert s == before + s + after;
    }
  }

  lemma BlankEnds(s: string)
    ensures Blank("")
    ensures s != "" && IsSpace(s[0]) ==> Blank(s[..1])
    ensures s != "" && IsSpace(s[|s| - 1]) ==> Blank(s[|s| - 1..])
  {
  }

  lemma BlankTogether(a: string, b: string)
    requires Blank(a) && Blank(b)
    ensures Blank(a + b)
  {
  }

  lemma Between(first: string, before: string, middle: string, after: string, last: string)
    ensures first + (before + middle + after) + last == (first + before) + middle + (after + last)
  {
  }

  /** `core` is `raw` without the white space around it. */
  ghost predicate IsCore(raw: string, core: string) {
    Tight(core) && exists before, after :: Blank(before) && Blank(after) && raw == before + core + after
  }

  lemma {:induction false} TrimmingBlank(s: string)
    requires Blank(s)
    ensures TrimSpace(s) == ""
    decreases |s|
  {
    if s != "" {
      assert s[0] in s;
      TrimmingBlank(s[1..]);
    }
  }

  lemma {:induction false} TrimmingFront(before: string, s: string)
    requires Blank(before)
    ensures TrimSpace(before + s) == TrimSpace(s)
    decreases |before|
  {
    if before == "" {
      assert before + s == s;
    } else {
      assert before[0] in before && (before + s)[1..] == before[1..] + s;
      TrimmingFront(before[1..], s);
    }
  }

  lemma {:induction false} TrimmingBack(core: string, after: string)
    requires Tight(core) && core != "" && Blank(after)
    ensures TrimSpace(core + after) == core
    decreases |after|
  {
    if after == "" {
      assert core + after == core;
      TrimmingTight(core);
    } else {
      var n := |after| - 1;
      assert after[n] in after && (core + after)[..|core + after| - 1] == core + after[..n];
      TrimmingBack(core, after[..n]);
    }
  }

  lemma TrimmingAround(before: string, core: string, after: string)
    requires Blank(before) && Tight(core) && Blank(after)
    ensures TrimSpace(before + core + after) == core
  {
    hide TrimSpace, Blank, Tight;
    assert before + core + after == before + (core + after);
    TrimmingFront(before, core + after);
    if core == "" {
      assert core + after == after;
      TrimmingBlank(after);
    } else {
      TrimmingBack(core, after);
    }
  }

  /** A text has one core, and that is what trimming leaves. */
  lemma TheCoreIsTrimmed(raw: string, core: string)
    ensures IsCore(raw, core) <==> core == TrimSpace(raw)
  {
    hide TrimSpace, Blank, Tight;
    var front, back := TrimmedIsTheMiddle(raw);
    if IsCore(raw, core) {
      var before, after :| Blank(before) && Blank(after) && raw == before + core + after;
      TrimmingAround(before, core, after);
    }
  }

  /** isControl of internal/search */
  predicate IsControl(c: char) {
    c < ' ' || c == '\U{7f}'
  }

  predicate HasControl(s: string) {
    exists c :: c in s && IsControl(c)
  }

  /** How many bytes a text takes in UTF-8 (section 3 of RFC 3629). */
  function Bytes(s: string): nat {
    if s == "" then 0
    else Bytes(s[1..]) + (if s[0] < '\U{80}' then 1 else if s[0] < '\U{800}' then 2 else if s[0] < '\U{10000}' then 3 else 4)
  }
}

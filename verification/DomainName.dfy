/** Names of domains: dot-separated sections, each checked by a regular expression, and the chain of parents. */
module DomainName {
  import opened Wrappers

  predicate Letter(c: char) { 'a' <= c <= 'z' }
  predicate Digit(c: char) { '0' <= c <= '9' }
  predicate Alnum(c: char) { Letter(c) || Digit(c) }

  const LETTERS := "abcdefghijklmnopqrstuvwxyz"
  const DIGITS := "0123456789"

  /** The alphabet, by its characters. */
  lemma Alphabet(c: char)
    ensures Letter(c) <==> c in LETTERS
    ensures Digit(c) <==> c in DIGITS
  {
    LettersInOrder();
    DigitsInOrder();
    if Letter(c) {
      assert LETTERS[c as int - 'a' as int] == c;
    }
    if Digit(c) {
      assert DIGITS[c as int - '0' as int] == c;
    }
  }

  lemma LettersInOrder()
    ensures |LETTERS| == 26 && forall i | 0 <= i < 26 :: LETTERS[i] as int == 'a' as int + i
  {
  }

  lemma DigitsInOrder()
    ensures |DIGITS| == 10 && forall i | 0 <= i < 10 :: DIGITS[i] as int == '0' as int + i
  {
  }

  /** Zero or more of: a letter; a letter or digit with a dash after it. */
  predicate Tokens(s: string) {
    || s == ""
    || (Letter(s[0]) && Tokens(s[1..]))
    || (|s| >= 2 && Alnum(s[0]) && s[1] == '-' && Tokens(s[2..]))
  }

  /** The search with ^, + and $, which also matches before a final newline. */
  predicate ValidSection(s: string) {
    || (s != "" && Tokens(s))
    || (|s| >= 2 && s[|s| - 1] == '\n' && Tokens(s[..|s| - 1]))
  }

  function LastDot(s: string): Option<nat> {
    if s == "" then None
    else if s[|s| - 1] == '.' then Some(|s| - 1)
    else LastDot(s[..|s| - 1])
  }

  lemma {:induction false} LastDotSplits(s: string)
    ensures match LastDot(s)
            case None => '.' !in s
            case Some(i) => i < |s| && s[i] == '.' && '.' !in s[i + 1..]
  {
    if s != "" {
      var n := |s| - 1;
      LastDotSplits(s[..n]);
      assert s == s[..n] + [s[n]];
      if s[n] != '.' && LastDot(s).Some? {
        assert s[LastDot(s).value + 1..] == s[..n][LastDot(s).value + 1..] + [s[n]];
      }
    }
  }

  /** A name and the name it is part of. */
  datatype Name = Name(text: string, partOf: Option<Name>)

  /** DomainName(s); None is the ValueError. */
  function Build(s: string): Option<Name>
    decreases |s|
  {
    LastDotSplits(s);
    match LastDot(s)
    case None => if ValidSection(s) then Some(Name(s, None)) else None
    case Some(i) =>
      if !ValidSection(s[i + 1..]) then None
      else match Build(s[..i]) case None => None case Some(parent) => Some(Name(s, Some(parent)))
  }

  // ---- what the expression accepts ---------------------------------------------------------------------

  /** A character in place: of a-z, 0-9 and "-"; a dash directly after, a digit directly before its counterpart. */
  predicate WellPlaced(s: string, i: nat)
    requires i < |s|
  {
    && (Alnum(s[i]) || s[i] == '-')
    && (s[i] == '-' ==> i > 0 && Alnum(s[i - 1]))
    && (Digit(s[i]) ==> i + 1 < |s| && s[i + 1] == '-')
  }

  /** Every dash directly after a letter or digit, every digit directly before a dash, and nothing else but letters. */
  predicate LocallyWellFormed(s: string) {
    forall i | 0 <= i < |s| :: WellPlaced(s, i)
  }

  lemma {:induction false} TokensIff(s: string)
    ensures Tokens(s) <==> LocallyWellFormed(s)
    decreases |s|
  {
    if s != "" {
      TokensIff(s[1..]);
      if |s| >= 2 {
        TokensIff(s[2..]);
      }
      if LocallyWellFormed(s) {
        TailWellFormed(s);
      }
      if Tokens(s) {
        TokenInFront(s);
      }
    }
  }

  /** A well-formed text starts with a token, and what follows it is well formed. */
  lemma TailWellFormed(s: string)
    requires LocallyWellFormed(s) && s != ""
    ensures if |s| >= 2 && s[1] == '-' then Alnum(s[0]) && LocallyWellFormed(s[2..])
            else Letter(s[0]) && LocallyWellFormed(s[1..])
  {
    assert WellPlaced(s, 0);
    if |s| >= 2 && s[1] == '-' {
      forall i | 0 <= i < |s[2..]| ensures WellPlaced(s[2..], i) {
        assert WellPlaced(s, i + 2);
      }
    } else {
      forall i | 0 <= i < |s[1..]| ensures WellPlaced(s[1..], i) {
        assert WellPlaced(s, i + 1);
      }
    }
  }

  /** A token in front of well-formed text is well-formed text. */
  lemma TokenInFront(s: string)
    requires s != ""
    requires || (Letter(s[0]) && LocallyWellFormed(s[1..]))
             || (|s| >= 2 && Alnum(s[0]) && s[1] == '-' && LocallyWellFormed(s[2..]))
    ensures LocallyWellFormed(s)
  {
    forall i | 0 <= i < |s| ensures WellPlaced(s, i) {
      if Letter(s[0]) && LocallyWellFormed(s[1..]) {
        assert i > 0 ==> WellPlaced(s[1..], i - 1);
      } else {
        assert i > 1 ==> WellPlaced(s[2..], i - 2);
      }
    }
  }

  // ---- the sections of a name -------------------------------------------------------------------------------

  /** Splitting at every dot, from the left. */
  function Split(s: string): (parts: seq<string>)
    ensures parts != []
  {
    if s == "" then [""]
    else
      var rest := Split(s[1..]);
      if s[0] == '.' then [""] + rest else [[s[0]] + rest[0]] + rest[1..]
  }

  function Join(parts: seq<string>): string
    requires parts != []
  {
    if |parts| == 1 then parts[0] else Join(parts[..|parts| - 1]) + "." + parts[|parts| - 1]
  }

  function Dots(s: string): nat {
    if s == "" then 0 else (if s[0] == '.' then 1 else 0) + Dots(s[1..])
  }

  lemma {:induction false} SplitWhole(s: string)
    requires '.' !in s
    ensures Split(s) == [s]
  {
    if s != "" {
      SplitWhole(s[1..]);
      assert [s[0]] + s[1..] == s;
    }
  }

  lemma {:induction false} SplitAtDot(s: string, t: string)
    requires '.' !in t
    ensures Split(s + "." + t) == Split(s) + [t]
  {
    var whole := s + "." + t;
    if s == "" {
      assert whole[1..] == t;
      SplitWhole(t);
    } else {
      assert whole[1..] == s[1..] + "." + t;
      SplitAtDot(s[1..], t);
    }
  }

  lemma {:induction false} SplitCountsDots(s: string)
    ensures |Split(s)| == 1 + Dots(s)
  {
    if s != "" {
      SplitCountsDots(s[1..]);
    }
  }

  /** The texts of a name's own sections, outermost parent first. */
  function Sections(n: Name): seq<string> {
    match n.partOf
    case None => [n.text]
    case Some(parent) =>
      Sections(parent) + [if |parent.text| < |n.text| then n.text[|parent.text| + 1..] else ""]
  }

  function Links(n: Name): nat {
    match n.partOf case None => 0 case Some(parent) => 1 + Links(parent)
  }

  predicate AllValid(parts: seq<string>) {
    forall part | part in parts :: ValidSection(part)
  }

  /** The chain of a name is in order: its sections are the text's, one link per dot, and they join to the text. */
  predicate InOrder(n: Name, s: string) {
    n.text == s && Sections(n) == Split(s) && Links(n) == Dots(s) && Join(Split(s)) == s
  }

  /**
    A name is accepted exactly when each of its dot-separated sections is valid; its chain of parents then
    has one link per dot, and its sections are those of the text, in order, and join to it again.
   */
  lemma {:induction false} BuildIff(s: string)
    ensures Build(s).Some? <==> AllValid(Split(s))
    ensures Build(s).Some? ==> InOrder(Build(s).value, s)
    decreases |s|
  {
    LastDotSplits(s);
    SplitCountsDots(s);
    match LastDot(s)
    case None =>
      SplitWhole(s);
    case Some(i) =>
      var head, tail := s[..i], s[i + 1..];
      assert s == head + "." + tail;
      SplitAtDot(head, tail);
      SplitCountsDots(head);
      BuildIff(head);
      ValidSnoc(Split(head), tail);
      if Build(s).Some? {
        ChildOf(Build(head).value, head, tail);
      }
  }

  lemma ValidSnoc(parts: seq<string>, part: string)
    ensures AllValid(parts + [part]) <==> AllValid(parts) && ValidSection(part)
  {
    assert forall p :: p in parts + [part] <==> p in parts || p == part;
  }

  /** A section below a name whose chain is in order. */
  lemma ChildOf(parent: Name, head: string, tail: string)
    requires parent.text == head && Sections(parent) != [] && Join(Sections(parent)) == head
    ensures var n := Name(head + "." + tail, Some(parent));
            Sections(n) == Sections(parent) + [tail] && Join(Sections(n)) == n.text && Links(n) == 1 + Links(parent)
  {
    var n := Name(head + "." + tail, Some(parent));
    assert n.text[|head| + 1..] == tail;
    assert Sections(n)[..|Sections(n)| - 1] == Sections(parent);
  }

  lemma {:induction false} SplitKeepsChars(s: string, part: string)
    requires part in Split(s)
    ensures forall c | c in part :: c in s
  {
    if s != "" {
      var rest := Split(s[1..]);
      if s[0] == '.' {
        if part != "" {
          SplitKeepsChars(s[1..], part);
        }
      } else if part in rest[1..] {
        SplitKeepsChars(s[1..], part);
      } else {
        SplitKeepsChars(s[1..], rest[0]);
      }
    }
  }

  /** Every character but the dots lies in a section. */
  lemma {:induction false} CharInSection(s: string, c: char) returns (part: string)
    requires c in s && c != '.'
    ensures part in Split(s) && c in part
  {
    var rest := Split(s[1..]);
    if c == s[0] {
      part := [s[0]] + rest[0];
    } else {
      part := CharInSection(s[1..], c);
      if s[0] != '.' && part == rest[0] {
        part := [s[0]] + rest[0];
      }
    }
  }

  /** A section without the one newline that the expression lets through at its end. */
  function Trimmed(part: string): string {
    if part != "" && part[|part| - 1] == '\n' then part[..|part| - 1] else part
  }

  /** A section is accepted exactly when, but for one final newline, it is non-empty and locally well formed. */
  lemma SectionIff(part: string)
    ensures ValidSection(part) <==> Trimmed(part) != "" && LocallyWellFormed(Trimmed(part))
  {
    TokensIff(part);
    TokensIff(Trimmed(part));
    if part != "" && part[|part| - 1] == '\n' {
      assert !WellPlaced(part, |part| - 1);
    }
  }

  /** A name is accepted exactly when that holds of every section. */
  lemma AcceptedIff(s: string)
    ensures Build(s).Some? <==>
              forall part | part in Split(s) :: Trimmed(part) != "" && LocallyWellFormed(Trimmed(part))
  {
    BuildIff(s);
    forall part | part in Split(s)
      ensures ValidSection(part) <==> Trimmed(part) != "" && LocallyWellFormed(Trimmed(part))
    {
      SectionIff(part);
    }
  }

  /**
    An accepted name is what was meant, every section non-empty and locally well formed, exactly when it has
    no newline.
   */
  lemma AcceptedAsMeantIff(s: string)
    requires Build(s).Some?
    ensures (forall part | part in Split(s) :: part != "" && LocallyWellFormed(part)) <==> '\n' !in s
  {
    AcceptedIff(s);
    if '\n' in s {
      var part := CharInSection(s, '\n');
      var i :| 0 <= i < |part| && part[i] == '\n';
      assert !WellPlaced(part, i);
    } else {
      forall part | part in Split(s) ensures part != "" && LocallyWellFormed(part) {
        SplitKeepsChars(s, part);
        assert Trimmed(part) == part;
      }
    }
  }

  /** The expression lets one newline through at the end of a section. */
  lemma FinalNewlineIsAccepted()
    ensures Build("a\n").Some? && !LocallyWellFormed("a\n")
  {
    var s := "a\n";
    assert s[..1] == "a";
    assert "a"[1..] == "";
    assert Tokens("a");
    assert LastDot("") == None;
    assert LastDot("a") == None by { assert "a"[..0] == ""; }
    assert LastDot(s) == None;
    assert !WellPlaced(s, 1);
  }
}

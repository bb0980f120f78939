/** The string transformations the alert labels and pollutant names use:
    `s.replace("_", " ")` and Python's `str.title()`, restricted to ASCII. */
module Text {

  predicate IsUpper(c: char) { 'A' <= c <= 'Z' }
  predicate IsLower(c: char) { 'a' <= c <= 'z' }
  /** A cased character: one `str.title()` changes and counts as inside a word. */
  predicate IsCased(c: char) { IsUpper(c) || IsLower(c) }

  function ToUpper(c: char): (u: char)
    ensures IsCased(c) ==> IsUpper(u)
    ensures !IsLower(c) ==> u == c
  {
    if IsLower(c) then (c as int - 32) as char else c
  }

  function ToLower(c: char): (l: char)
    ensures IsCased(c) ==> IsLower(l)
    ensures !IsUpper(c) ==> l == c
  {
    if IsUpper(c) then (c as int + 32) as char else c
  }

  /** Every occurrence of `a` in `s` replaced by `b`. */
  function Replace(s: string, a: char, b: char): (r: string)
    ensures |r| == |s|
    ensures forall i :: 0 <= i < |s| ==> r[i] == if s[i] == a then b else s[i]
  {
    if s == [] then [] else [if s[0] == a then b else s[0]] + Replace(s[1..], a, b)
  }

  /** `str.title()` continued after a character that was (or was not) cased:
      a cased character is upper-cased at the start of a word and lower-cased
      inside one; any other character is kept and ends the word. */
  function TitleFrom(s: string, afterCased: bool): (r: string)
    ensures |r| == |s|
  {
    if s == [] then []
    else
      var c := s[0];
      [if !IsCased(c) then c else if afterCased then ToLower(c) else ToUpper(c)]
        + TitleFrom(s[1..], IsCased(c))
  }

  function Title(s: string): (r: string)
    ensures |r| == |s|
  {
    TitleFrom(s, false)
  }

  /** Whether position `i` of `s` starts a word: the first character, or one
      after an uncased character. */
  predicate StartsWord(s: string, i: nat)
    requires i < |s|
  {
    i == 0 || !IsCased(s[i - 1])
  }

  /** Character-wise meaning of `str.title()`. */
  lemma {:induction false} TitleFromAt(s: string, afterCased: bool, i: nat)
    requires i < |s|
    ensures TitleFrom(s, afterCased)[i] ==
      if !IsCased(s[i]) then s[i]
      else if (if i == 0 then afterCased else IsCased(s[i - 1])) then ToLower(s[i])
      else ToUpper(s[i])
  {
    if i > 0 {
      TitleFromAt(s[1..], IsCased(s[0]), i - 1);
      assert s[1..][i - 1] == s[i];
      if i > 1 {
        assert s[1..][i - 2] == s[i - 1];
      }
    }
  }

  lemma TitleAt(s: string, i: nat)
    requires i < |s|
    ensures Title(s)[i] ==
      if !IsCased(s[i]) then s[i]
      else if StartsWord(s, i) then ToUpper(s[i])
      else ToLower(s[i])
  {
    TitleFromAt(s, false, i);
  }

  /** Title-casing keeps which characters are cased. */
  lemma TitleKeepsCased(s: string, i: nat)
    requires i < |s|
    ensures IsCased(Title(s)[i]) <==> IsCased(s[i])
  {
    TitleAt(s, i);
  }

  /** Title-casing an already title-cased string changes nothing. */
  lemma TitleIdempotent(s: string)
    ensures Title(Title(s)) == Title(s)
  {
    var t := Title(s);
    forall i | 0 <= i < |s| ensures Title(t)[i] == t[i] {
      TitleAt(s, i);
      TitleAt(t, i);
      if i > 0 {
        TitleKeepsCased(s, i - 1);
      }
    }
  }

  /** The human label of an identifier: underscores become spaces, then the
      result is title-cased (`name.replace("_", " ").title()`). */
  function Humanize(name: string): (r: string)
    ensures |r| == |name|
  {
    Title(Replace(name, '_', ' '))
  }

  /** No underscore survives in a label. */
  lemma HumanizeNoUnderscore(name: string)
    ensures '_' !in Humanize(name)
  {
    var spaced := Replace(name, '_', ' ');
    forall i | 0 <= i < |name| ensures Humanize(name)[i] != '_' {
      TitleAt(spaced, i);
    }
  }

  /** Each word of the label begins upper-case and continues lower-case, and
      every underscore of the name separates two words. */
  lemma HumanizeAt(name: string, i: nat)
    requires i < |name|
    ensures name[i] == '_' ==> Humanize(name)[i] == ' '
    ensures IsCased(name[i]) && (i == 0 || !IsCased(name[i - 1])) ==> Humanize(name)[i] == ToUpper(name[i])
    ensures IsCased(name[i]) && i > 0 && IsCased(name[i - 1]) ==> Humanize(name)[i] == ToLower(name[i])
    ensures !IsCased(name[i]) && name[i] != '_' ==> Humanize(name)[i] == name[i]
  {
    TitleAt(Replace(name, '_', ' '), i);
  }

  /** Inside a word, a lower-case run is left as it is. */
  lemma {:induction false} TitleFromLowerRun(s: string)
    requires forall i :: 0 <= i < |s| ==> IsLower(s[i])
    ensures TitleFrom(s, true) == s
  {
    if s != [] {
      TitleFromLowerRun(s[1..]);
    }
  }

  /** A lower-case word with no underscore is labelled by capitalising its
      first letter. */
  lemma HumanizeLowerWord(name: string)
    requires name != []
    requires forall i :: 0 <= i < |name| ==> IsLower(name[i])
    ensures Humanize(name) == [ToUpper(name[0])] + name[1..]
  {
    assert Replace(name, '_', ' ') == name;
    TitleFromLowerRun(name[1..]);
  }

  /** The label of the muting transition. */
  lemma HumanizeMute()
    ensures Humanize("mute") == "Mute"
  {
    var name := "mute";
    HumanizeLowerWord(name);
    var h := Humanize(name);
    assert h[0] == 'M';
    assert forall i :: 0 <= i < 4 ==> h[i] == "Mute"[i];
  }

  /** The label of the acknowledging transition (stated for a variable equal
      to the literal, which keeps the solver from evaluating the literal). */
  lemma HumanizeAcknowledge(name: string)
    requires name == "acknowledge"
    ensures Humanize(name) == "Acknowledge"
  {
    assert forall i :: 0 <= i < |name| ==> IsLower(name[i]);
    HumanizeLowerWord(name);
    assert ToUpper(name[0]) == 'A';
  }
}

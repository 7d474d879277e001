/**
 * The avatar initials of a leaderboard row (src/pages/Leaderboard.tsx):
 * `full_name?.split(" ").map(n => n[0]).join("").toUpperCase() || "?"`.
 *
 * Characters are treated as ASCII: upper-casing maps 'a'..'z' to 'A'..'Z'
 * and leaves every other character alone.
 */
module Initials {
  import opened Optional

  const Space := ' '

  /** Number of space characters in a string. */
  function CountSpaces(s: string): nat
  {
    if |s| == 0 then 0 else (if s[0] == Space then 1 else 0) + CountSpaces(s[1..])
  }

  /** `s.split(" ")`: the pieces between single spaces. Adjacent spaces and
      leading or trailing spaces give empty pieces; the empty string gives one
      empty piece. */
  function Split(s: string): (parts: seq<string>)
    ensures |parts| == CountSpaces(s) + 1
    ensures forall i :: 0 <= i < |parts| ==> Space !in parts[i]
  {
    if |s| == 0 then [""]
    else if s[0] == Space then [""] + Split(s[1..])
    else
      var rest := Split(s[1..]);
      [[s[0]] + rest[0]] + rest[1..]
  }

  /** `parts.join(" ")`, the inverse of `Split`. */
  function Join(parts: seq<string>): string
  {
    if |parts| == 0 then ""
    else if |parts| == 1 then parts[0]
    else parts[0] + [Space] + Join(parts[1..])
  }

  /** `parts.map(n => n[0]).join("")`: the first character of each piece; an
      empty piece yields `undefined`, which `join` writes as nothing. */
  function Firsts(parts: seq<string>): (r: string)
    ensures |r| <= |parts|
  {
    if |parts| == 0 then ""
    else (if |parts[0]| > 0 then [parts[0][0]] else "") + Firsts(parts[1..])
  }

  /** `toUpperCase` on one ASCII character. */
  function UpperChar(c: char): char
  {
    if 'a' <= c <= 'z' then (c as int - 32) as char else c
  }

  function ToUpper(s: string): (r: string)
    ensures |r| == |s|
    ensures forall i :: 0 <= i < |s| ==> r[i] == UpperChar(s[i])
  {
    if |s| == 0 then "" else [UpperChar(s[0])] + ToUpper(s[1..])
  }

  /** The avatar text for a (possibly null) full name. */
  function Initials(fullName: Option<string>): (r: string)
    ensures |r| > 0
    ensures fullName.Some? ==> |r| <= CountSpaces(fullName.value) + 1
  {
    var joined := if fullName.Some? then ToUpper(Firsts(Split(fullName.value))) else "";
    if joined == "" then "?" else joined
  }

  /** Reference reading of the initials, by one scan: the characters that are
      not spaces and stand at the start or right after a space, in order.
      `atStart` says whether the previous character was a space (or there was
      none). */
  function WordStarts(s: string, atStart: bool): string
  {
    if |s| == 0 then ""
    else if s[0] == Space then WordStarts(s[1..], true)
    else (if atStart then [s[0]] else "") + WordStarts(s[1..], false)
  }

  /** Splitting and rejoining with spaces gives the name back. */
  lemma {:induction false} JoinSplit(s: string)
    ensures Join(Split(s)) == s
  {
    if |s| > 0 {
      JoinSplit(s[1..]);
      var rest := Split(s[1..]);
      if s[0] == Space {
        assert Split(s)[1..] == rest;
        assert [s[0]] + s[1..] == s;
      } else {
        var parts := Split(s);
        if |rest| == 1 {
          assert parts == [[s[0]] + rest[0]];
        } else {
          assert parts[1..] == rest[1..];
          assert Join(rest) == rest[0] + [Space] + Join(rest[1..]);
        }
        assert [s[0]] + s[1..] == s;
      }
    }
  }

  /** The first characters of the split pieces are exactly the word starts;
      the second conjunct covers the pieces after the first. */
  lemma {:induction false} FirstsAreWordStarts(s: string)
    ensures Firsts(Split(s)) == WordStarts(s, true)
    ensures Firsts(Split(s)[1..]) == WordStarts(s, false)
  {
    if |s| > 0 {
      FirstsAreWordStarts(s[1..]);
      var rest := Split(s[1..]);
      var parts := Split(s);
      if s[0] == Space {
        assert parts[1..] == rest;
      } else {
        assert parts[1..] == rest[1..];
        assert parts[0][0] == s[0];
      }
    }
  }

  /** The initials are the upper-cased word starts of the name, or "?" when
      there is no name or no word in it; empty pieces from repeated spaces
      contribute nothing. */
  lemma InitialsAreUpperWordStarts(fullName: Option<string>)
    ensures fullName.None? ==> Initials(fullName) == "?"
    ensures fullName.Some? && WordStarts(fullName.value, true) == "" ==> Initials(fullName) == "?"
    ensures fullName.Some? && WordStarts(fullName.value, true) != "" ==>
              Initials(fullName) == ToUpper(WordStarts(fullName.value, true))
  {
    if fullName.Some? {
      FirstsAreWordStarts(fullName.value);
    }
  }

  /** Repeated spaces add nothing; a blank or empty name gives "?". */
  lemma InitialsExamples()
    ensures Initials(Some("a  b")) == "AB"
    ensures Initials(Some("  ")) == "?"
    ensures Initials(Some("")) == "?"
  {
  }
}

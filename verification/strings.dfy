/**
 * The string operations the data source relies on: case-insensitive matching
 * of a literal pattern (what `new RegExp(pattern, "gi")` does for the plain
 * keyword and username literals of the configuration) and JavaScript's
 * `String.prototype.split` / `Array.prototype.join` on a one-character
 * separator.
 */
module Strings {

  /** ASCII lower-casing. A non-unicode JavaScript regular expression with the
      `i` flag never folds a non-ASCII character onto an ASCII one, so for ASCII
      patterns this is the folding the matcher applies. */
  function Lower(c: char): (d: char)
    ensures 'A' <= c <= 'Z' ==> d as int == c as int + 32
    ensures !('A' <= c <= 'Z') ==> d == c
  {
    if 'A' <= c <= 'Z' then (c as int + 32) as char else c
  }

  function LowerS(s: string): (t: string)
    ensures |t| == |s|
    ensures forall i :: 0 <= i < |s| ==> t[i] == Lower(s[i])
  {
    seq(|s|, i requires 0 <= i < |s| => Lower(s[i]))
  }

  /** `pattern` occurs in `text` at offset `i`, ignoring case. */
  predicate MatchAt(text: string, pattern: string, i: int)
  {
    0 <= i && i + |pattern| <= |text| && LowerS(text[i..i + |pattern|]) == LowerS(pattern)
  }

  /** `text` starts with `pattern`, ignoring case. */
  predicate StartsWithCI(text: string, pattern: string)
  {
    MatchAt(text, pattern, 0)
  }

  /** The matcher's left-to-right scan: does `pattern` occur anywhere in
      `text`, ignoring case? (`text.match(new RegExp(pattern, "gi"))` is
      truthy.) An empty pattern matches every text, and a pattern longer
      than the text matches none. */
  function ContainsCI(text: string, pattern: string): (b: bool)
    ensures StartsWithCI(text, pattern) ==> b
    ensures |pattern| == 0 ==> b
    ensures b ==> |pattern| <= |text|
    decreases |text|
  {
    if StartsWithCI(text, pattern) then true
    else if |text| == 0 then false
    else ContainsCI(text[1..], pattern)
  }

  /** Shifting the text by one character shifts every occurrence by one. */
  lemma MatchAtShift(text: string, pattern: string, i: int)
    requires |text| > 0 && 0 <= i
    ensures MatchAt(text, pattern, i + 1) <==> MatchAt(text[1..], pattern, i)
  {
    if i + 1 + |pattern| <= |text| {
      assert text[1..][i..i + |pattern|] == text[i + 1..i + 1 + |pattern|];
    }
  }

  /** The scan finds a match exactly when some offset holds one. */
  lemma {:induction false} ContainsCIIff(text: string, pattern: string)
    ensures ContainsCI(text, pattern) <==> exists i :: MatchAt(text, pattern, i)
    decreases |text|
  {
    if StartsWithCI(text, pattern) {
    } else if |text| == 0 {
      forall i | MatchAt(text, pattern, i) ensures false {
      }
    } else {
      ContainsCIIff(text[1..], pattern);
      if ContainsCI(text[1..], pattern) {
        var i :| MatchAt(text[1..], pattern, i);
        MatchAtShift(text, pattern, i);
      } else {
        forall i | MatchAt(text, pattern, i) ensures false {
          if i > 0 {
            MatchAtShift(text, pattern, i - 1);
          }
        }
      }
    }
  }

  /** `s.split(sep)`: the pieces between the separators, always at least one
      (`"".split(",")` is `[""]`), none of them holding the separator. */
  function Split(s: string, sep: char): (parts: seq<string>)
    ensures |parts| >= 1
    ensures forall k :: 0 <= k < |parts| ==> sep !in parts[k]
    decreases |s|
  {
    if |s| == 0 then [""]
    else
      var rest := Split(s[1..], sep);
      if s[0] == sep then [""] + rest
      else [[s[0]] + rest[0]] + rest[1..]
  }

  /** `parts.join(sep)`. */
  function Join(parts: seq<string>, sep: char): string
  {
    if |parts| == 0 then ""
    else if |parts| == 1 then parts[0]
    else parts[0] + [sep] + Join(parts[1..], sep)
  }

  lemma JoinCons(x: string, y: string, rest: seq<string>, sep: char)
    ensures Join([x + y] + rest, sep) == x + Join([y] + rest, sep)
  {
    if |rest| > 0 {
      assert ([x + y] + rest)[1..] == rest;
      assert ([y] + rest)[1..] == rest;
    }
  }

  /** Joining the pieces of a split gives back the original string. */
  lemma {:induction false} JoinSplit(s: string, sep: char)
    ensures Join(Split(s, sep), sep) == s
    decreases |s|
  {
    if |s| > 0 {
      var rest := Split(s[1..], sep);
      JoinSplit(s[1..], sep);
      if s[0] == sep {
        assert ([""] + rest)[1..] == rest;
        assert s == [sep] + s[1..];
      } else {
        JoinCons([s[0]], rest[0], rest[1..], sep);
        assert [rest[0]] + rest[1..] == rest;
        assert s == [s[0]] + s[1..];
      }
    }
  }

  /** Prefixing a separator-free string extends the first piece. */
  lemma {:induction false} SplitPrepend(x: string, s: string, sep: char)
    requires sep !in x
    ensures Split(x + s, sep) == [x + Split(s, sep)[0]] + Split(s, sep)[1..]
    decreases |x|
  {
    if |x| == 0 {
      assert x + s == s;
      var r := Split(s, sep);
      assert x + r[0] == r[0];
      assert [r[0]] + r[1..] == r;
    } else {
      SplitPrepend(x[1..], s, sep);
      var r := Split(s, sep);
      assert (x + s)[0] == x[0] && (x + s)[1..] == x[1..] + s;
      var inner := Split(x[1..] + s, sep);
      assert inner[0] == x[1..] + r[0] && inner[1..] == r[1..];
      assert Split(x + s, sep) == [[x[0]] + inner[0]] + inner[1..];
      assert [x[0]] + (x[1..] + r[0]) == x + r[0];
    }
  }

  /** Splitting a join of separator-free pieces gives back the pieces. */
  lemma {:induction false} SplitJoin(parts: seq<string>, sep: char)
    requires |parts| >= 1
    requires forall k :: 0 <= k < |parts| ==> sep !in parts[k]
    ensures Split(Join(parts, sep), sep) == parts
    decreases |parts|
  {
    if |parts| == 1 {
      SplitPrepend(parts[0], "", sep);
      assert parts[0] + "" == parts[0];
    } else {
      var rest := parts[1..];
      SplitJoin(rest, sep);
      var j := Join(rest, sep);
      SplitPrepend(parts[0], [sep] + j, sep);
      assert parts[0] + [sep] + j == parts[0] + ([sep] + j);
      assert Split([sep] + j, sep) == [""] + rest by {
        assert ([sep] + j)[1..] == j;
      }
      assert Join(parts, sep) == parts[0] + [sep] + j;
      assert parts[0] + "" == parts[0];
      assert parts == [parts[0]] + rest;
    }
  }
}

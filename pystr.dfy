/** The few Python `str` built-ins the add-on relies on: `in` (substring test),
    `startswith`, `split(sep)`, `sep.join`, `lower`, `capitalize` and `int`.
    Strings are sequences of characters; case mapping is the ASCII one. */
module PyStr {

  datatype Option<T> = None | Some(value: T)

  /** `sub` occurs in `s` starting at index `i`. */
  predicate OccursAt(s: string, sub: string, i: int)
  {
    0 <= i && i + |sub| <= |s| && s[i..i + |sub|] == sub
  }

  /** Python's `sub in s` for two strings. */
  predicate Contains(s: string, sub: string)
  {
    exists i | 0 <= i <= |s| - |sub| :: OccursAt(s, sub, i)
  }

  /** Python's `s.startswith(p)`. */
  predicate HasPrefix(s: string, p: string)
  {
    |p| <= |s| && s[..|p|] == p
  }

  /** A string starts with what was put in front of it, and the rest follows. */
  lemma PrefixParts(p: string, x: string)
    ensures HasPrefix(p + x, p) && (p + x)[|p|..] == x
  {
    assert (p + x)[..|p|] == p;
  }

  /** A string that starts with `p` neither starts with nor equals a `q` that
      differs from `p` at an index both have. */
  lemma DifferentPrefix(s: string, p: string, q: string, j: nat)
    requires HasPrefix(s, p) && j < |p| && j < |q| && p[j] != q[j]
    ensures !HasPrefix(s, q) && s != q
  {
    assert s[j] == s[..|p|][j] == p[j];
    assert |q| <= |s| ==> s[..|q|][j] == s[j];
  }

  // ---------------------------------------------------------------------------
  // split and join
  // ---------------------------------------------------------------------------

  /** Python's `s.split(sep)` for a non-empty separator: the leftmost occurrence
      is cut first and scanning resumes after it; empty pieces are kept, so the
      result is never empty (`"".split(" ") == [""]`). */
  function Split(s: string, sep: string): (pieces: seq<string>)
    requires |sep| > 0
    ensures |pieces| >= 1
    decreases |s|
  {
    if |s| < |sep| then [s]
    else if s[..|sep|] == sep then [""] + Split(s[|sep|..], sep)
    else
      var rest := Split(s[1..], sep);
      [[s[0]] + rest[0]] + rest[1..]
  }

  /** Python's `sep.join(pieces)` for a non-empty list. */
  function Join(pieces: seq<string>, sep: string): string
    requires |pieces| >= 1
  {
    if |pieces| == 1 then pieces[0] else pieces[0] + sep + Join(pieces[1..], sep)
  }

  /** Joining the pieces of a split with the same separator gives back the string. */
  lemma {:induction false} JoinSplit(s: string, sep: string)
    requires |sep| > 0
    ensures Join(Split(s, sep), sep) == s
    decreases |s|
  {
    if |s| < |sep| {
    } else if s[..|sep|] == sep {
      JoinSplit(s[|sep|..], sep);
      JoinSplitAtSeparator(s, sep);
    } else {
      JoinSplit(s[1..], sep);
      JoinSplitPastCharacter(s, sep);
    }
  }

  /** The step of `JoinSplit` where `s` starts with the separator. */
  lemma JoinSplitAtSeparator(s: string, sep: string)
    requires 0 < |sep| <= |s| && s[..|sep|] == sep
    requires Join(Split(s[|sep|..], sep), sep) == s[|sep|..]
    ensures Join(Split(s, sep), sep) == s
  {
    SplitAtSeparator(s, sep);
    JoinCons("", Split(s[|sep|..], sep), sep);
    AppendEmpty(sep, s[|sep|..]);
    assert s == sep + s[|sep|..];
  }

  /** The step of `JoinSplit` where `s` does not start with the separator. */
  lemma JoinSplitPastCharacter(s: string, sep: string)
    requires 0 < |sep| <= |s| && s[..|sep|] != sep
    requires Join(Split(s[1..], sep), sep) == s[1..]
    ensures Join(Split(s, sep), sep) == s
  {
    var rest := Split(s[1..], sep);
    SplitPastCharacter(s, sep);
    JoinCons([s[0]] + rest[0], rest[1..], sep);
    HeadTail(s);
    if |rest| == 1 {
      assert Join(rest, sep) == rest[0];
    } else {
      var j := Join(rest[1..], sep);
      assert Join(rest, sep) == rest[0] + sep + j;
      AppendAssoc([s[0]], rest[0], sep);
      AppendAssoc([s[0]], rest[0] + sep, j);
    }
  }

  /** `Split`'s second case: a leading separator gives an empty first piece. */
  lemma SplitAtSeparator(s: string, sep: string)
    requires 0 < |sep| <= |s| && s[..|sep|] == sep
    ensures Split(s, sep) == [""] + Split(s[|sep|..], sep)
  {
  }

  /** `Split`'s third case: the first character joins the first piece of the rest. */
  lemma SplitPastCharacter(s: string, sep: string)
    requires 0 < |sep| <= |s| && s[..|sep|] != sep
    ensures var rest := Split(s[1..], sep); Split(s, sep) == [[s[0]] + rest[0]] + rest[1..]
  {
  }

  /** A non-empty string is its first character followed by the rest. */
  lemma HeadTail(s: string)
    requires |s| > 0
    ensures s == [s[0]] + s[1..]
  {
  }

  /** The empty string is a left unit of concatenation. */
  lemma AppendEmpty(a: string, b: string)
    ensures "" + a + b == a + b
  {
  }

  /** Concatenation is associative. */
  lemma AppendAssoc(a: string, b: string, c: string)
    ensures (a + b) + c == a + (b + c)
  {
  }

  /** Joining a list given by its head and tail. */
  lemma JoinCons(head: string, tail: seq<string>, sep: string)
    ensures Join([head] + tail, sep) == if tail == [] then head else head + sep + Join(tail, sep)
  {
    assert ([head] + tail)[1..] == tail;
  }

  /** A string without the separator splits into itself alone. */
  lemma {:induction false} SplitWithoutSeparator(s: string, sep: string)
    requires |sep| > 0
    requires !Contains(s, sep)
    ensures Split(s, sep) == [s]
    decreases |s|
  {
    if |s| < |sep| {
    } else {
      assert !OccursAt(s, sep, 0);
      if Contains(s[1..], sep) {
        var i :| 0 <= i <= |s[1..]| - |sep| && OccursAt(s[1..], sep, i);
        assert s[i + 1..i + 1 + |sep|] == s[1..][i..i + |sep|];
        assert OccursAt(s, sep, i + 1);
        assert false;
      }
      SplitWithoutSeparator(s[1..], sep);
      assert [s[0]] + s[1..] == s;
    }
  }

  /** A string without the one-character separator splits into itself alone. */
  lemma SplitWithoutCharacter(s: string, c: char)
    requires c !in s
    ensures Split(s, [c]) == [s]
  {
    forall i | 0 <= i <= |s| - 1 ensures !OccursAt(s, [c], i) {
      assert s[i..i + 1] == [s[i]];
    }
    SplitWithoutSeparator(s, [c]);
  }

  /** A string holding the one-character separator splits into at least two pieces. */
  lemma {:induction false} SplitAtCharacter(s: string, c: char)
    requires c in s
    ensures |Split(s, [c])| >= 2
    decreases |s|
  {
    if s[..1] != [c] {
      assert s[0] != c;
      assert c in s[1..] by {
        var i :| 0 <= i < |s| && s[i] == c;
        assert s[1..][i - 1] == c;
      }
      SplitAtCharacter(s[1..], c);
    }
  }

  /** The first piece of a split is everything before the first occurrence of
      the separator, when the separator's first character does not occur earlier. */
  lemma {:induction false} SplitAfterPiece(a: string, sep: string, b: string)
    requires |sep| > 0 && sep[0] !in a
    ensures Split(a + sep + b, sep) == [a] + Split(b, sep)
  {
    var s := a + sep + b;
    if a == [] {
      assert s[..|sep|] == sep && s[|sep|..] == b;
    } else {
      assert s[..|sep|] != sep by { assert s[0] == a[0] != sep[0]; }
      assert s[1..] == a[1..] + sep + b;
      SplitAfterPiece(a[1..], sep, b);
      assert [s[0]] + a[1..] == a;
    }
  }

  /** Splitting a join gives the pieces back, when the separator's first
      character occurs in none of them. */
  lemma {:induction false} SplitJoin(pieces: seq<string>, sep: string)
    requires |pieces| >= 1 && |sep| > 0
    requires forall k | 0 <= k < |pieces| :: sep[0] !in pieces[k]
    ensures Split(Join(pieces, sep), sep) == pieces
  {
    if |pieces| == 1 {
      forall i | 0 <= i <= |pieces[0]| - |sep| ensures !OccursAt(pieces[0], sep, i) {
        assert pieces[0][i..i + |sep|][0] == pieces[0][i] != sep[0];
      }
      SplitWithoutSeparator(pieces[0], sep);
    } else {
      SplitJoin(pieces[1..], sep);
      SplitAfterPiece(pieces[0], sep, Join(pieces[1..], sep));
      assert [pieces[0]] + pieces[1..] == pieces;
    }
  }

  /** Every character of every piece of a split comes from the string split. */
  lemma {:induction false} SplitPiecesFromString(s: string, sep: string, k: int, c: char)
    requires |sep| > 0 && 0 <= k < |Split(s, sep)| && c in Split(s, sep)[k]
    ensures c in s
    decreases |s|
  {
    if |s| < |sep| {
    } else if s[..|sep|] == sep {
      if k > 0 {
        SplitPiecesFromString(s[|sep|..], sep, k - 1, c);
      }
    } else {
      var rest := Split(s[1..], sep);
      if k == 0 {
        if c != s[0] {
          SplitPiecesFromString(s[1..], sep, 0, c);
        }
      } else {
        SplitPiecesFromString(s[1..], sep, k, c);
      }
    }
  }

  /** Number of (possibly overlapping) positions at which `sep` occurs in `s`. */
  function Occurrences(s: string, sep: string): nat
    requires |sep| > 0
    decreases |s|
  {
    if |s| < |sep| then 0
    else (if s[..|sep|] == sep then 1 else 0) + Occurrences(s[1..], sep)
  }

  /** Positions holding a character other than the separator's first one add
      no occurrence. */
  lemma {:induction false} OccurrencesSkip(s: string, sep: string, i: nat, j: nat)
    requires |sep| > 0 && i <= j <= |s|
    requires forall m | i <= m < j :: s[m] != sep[0]
    ensures Occurrences(s[i..], sep) == Occurrences(s[j..], sep)
    decreases j - i
  {
    if i < j {
      var t := s[i..];
      if |t| >= |sep| {
        assert t[0] == s[i] != sep[0];
        assert t[..|sep|] != sep;
      } else {
        assert |s[i + 1..]| < |sep|;
        assert Occurrences(s[i + 1..], sep) == 0;
      }
      assert t[1..] == s[i + 1..];
      OccurrencesSkip(s, sep, i + 1, j);
    }
  }

  /** When the separator's first character does not reappear inside it (true of
      `"$VERSION"`), occurrences cannot overlap and a split yields exactly one
      more piece than there are occurrences. */
  lemma {:induction false} SplitCountsOccurrences(s: string, sep: string)
    requires |sep| > 0
    requires sep[0] !in sep[1..]
    ensures |Split(s, sep)| == Occurrences(s, sep) + 1
    decreases |s|
  {
    if |s| < |sep| {
    } else if s[..|sep|] == sep {
      SplitCountsOccurrences(s[|sep|..], sep);
      forall m | 1 <= m < |sep| ensures s[m] != sep[0] {
        assert s[m] == sep[m] == sep[1..][m - 1];
      }
      OccurrencesSkip(s, sep, 1, |sep|);
      assert s[0..] == s;
    } else {
      SplitCountsOccurrences(s[1..], sep);
    }
  }

  /** Total length of a list of strings. */
  function TotalLength(pieces: seq<string>): nat
  {
    if pieces == [] then 0 else |pieces[0]| + TotalLength(pieces[1..])
  }

  /** A join adds one separator between each pair of neighbouring pieces. */
  lemma {:induction false} JoinLength(pieces: seq<string>, sep: string)
    requires |pieces| >= 1
    ensures |Join(pieces, sep)| == TotalLength(pieces) + (|pieces| - 1) * |sep|
  {
    if |pieces| > 1 {
      JoinLength(pieces[1..], sep);
      assert (|pieces| - 1) * |sep| == |sep| + (|pieces| - 2) * |sep|;
    } else {
      assert TotalLength(pieces[1..]) == 0;
    }
  }

  // ---------------------------------------------------------------------------
  // case mapping
  // ---------------------------------------------------------------------------

  function LowerChar(c: char): char
  {
    if 'A' <= c <= 'Z' then (c as int + 32) as char else c
  }

  function UpperChar(c: char): char
  {
    if 'a' <= c <= 'z' then (c as int - 32) as char else c
  }

  /** Python's `s.lower()` on ASCII letters. */
  function Lower(s: string): (r: string)
    ensures |r| == |s|
    ensures forall i | 0 <= i < |s| :: r[i] == LowerChar(s[i])
  {
    seq(|s|, i requires 0 <= i < |s| => LowerChar(s[i]))
  }

  /** Python's `s.capitalize()` on ASCII letters: the first character upper
      case, every other one lower case. */
  function Capitalize(s: string): (r: string)
    ensures |r| == |s|
  {
    if s == [] then [] else [UpperChar(s[0])] + Lower(s[1..])
  }

  /** Capitalizing twice changes nothing more. */
  lemma CapitalizeIdempotent(s: string)
    ensures Capitalize(Capitalize(s)) == Capitalize(s)
  {
    if s != [] {
      var c := Capitalize(s);
      assert c[1..] == Lower(s[1..]);
      assert Lower(c[1..]) == c[1..];
    }
  }

  // ---------------------------------------------------------------------------
  // integers
  // ---------------------------------------------------------------------------

  predicate IsDigits(s: string)
  {
    |s| > 0 && forall i | 0 <= i < |s| :: '0' <= s[i] <= '9'
  }

  function DigitsValue(s: string): nat
    requires forall i | 0 <= i < |s| :: '0' <= s[i] <= '9'
  {
    if s == [] then 0 else 10 * DigitsValue(s[..|s| - 1]) + (s[|s| - 1] as int - '0' as int)
  }

  /** Python's `int(s)` on a string: an optional sign and at least one decimal
      digit; anything else raises, which is `None` here. */
  function ParseInt(s: string): Option<int>
  {
    if |s| > 0 && (s[0] == '-' || s[0] == '+') then
      if IsDigits(s[1..]) then
        var v: int := DigitsValue(s[1..]);
        Some(if s[0] == '-' then -v else v)
      else None
    else if IsDigits(s) then Some(DigitsValue(s))
    else None
  }

  /** The decimal numeral of `n`, as `str(n)` writes it. */
  function Decimal(n: nat): (r: string)
    ensures IsDigits(r)
  {
    if n < 10 then [('0' as int + n) as char]
    else Decimal(n / 10) + [('0' as int + n % 10) as char]
  }

  /** Reading back a written numeral gives the number. */
  lemma {:induction false} ParseDecimal(n: nat)
    ensures ParseInt(Decimal(n)) == Some(n)
  {
    DecimalValue(n);
  }

  lemma {:induction false} DecimalValue(n: nat)
    ensures DigitsValue(Decimal(n)) == n
  {
    var d := Decimal(n);
    if n < 10 {
      assert d[..0] == [];
    } else {
      DecimalValue(n / 10);
      assert d[..|d| - 1] == Decimal(n / 10);
    }
  }
}

/** The one piece of the build script that carries logic: the substitution of
    the `$VERSION` placeholder in each line of a source file being staged. */
module Reload {
  import opened PyStr

  /** The placeholder searched for in every line. */
  const NameVar := "$VERSION"

  /** What a line becomes: its pieces around each placeholder, in order, joined
      by the capitalized version. */
  function Substitute(line: string, version: string): (r: string)
    ensures !Contains(line, NameVar) ==> r == line
  {
    var r := Join(Split(line, NameVar), Capitalize(version));
    assert !Contains(line, NameVar) ==> r == line by {
      if !Contains(line, NameVar) {
        SplitWithoutSeparator(line, NameVar);
      }
    }
    r
  }

  /** `do_replacements_on`: a line with the placeholder is rebuilt piece by
      piece, each piece but the last followed by the capitalized version; any
      other line is returned as it is. */
  method DoReplacementsOn(line: string, version: string) returns (tmp: string)
    ensures tmp == Substitute(line, version)
    ensures !Contains(line, NameVar) ==> tmp == line
  {
    tmp := "";
    if Contains(line, NameVar) {
      var nline := Split(line, NameVar);
      var cap := Capitalize(version);
      var index := 0;
      while index < |nline| - 1
        invariant 0 <= index <= |nline| - 1
        invariant tmp + Join(nline[index..], cap) == Join(nline, cap)
      {
        assert nline[index..][0] == nline[index] && nline[index..][1..] == nline[index + 1..];
        tmp := tmp + nline[index] + cap;
        index := index + 1;
      }
      assert nline[index..] == [nline[|nline| - 1]];
      tmp := tmp + nline[|nline| - 1];
    } else {
      tmp := line;
    }
  }

  /** Every occurrence of the placeholder is replaced by one copy of the
      capitalized version: the line loses eight characters per occurrence and
      gains the version's length for each. */
  lemma SubstitutedLength(line: string, version: string)
    ensures var k := Occurrences(line, NameVar);
      |Substitute(line, version)| == |line| - 8 * k + k * |version|
  {
    var pieces := Split(line, NameVar);
    var k := Occurrences(line, NameVar);
    assert NameVar[0] !in NameVar[1..];
    SplitCountsOccurrences(line, NameVar);
    JoinSplit(line, NameVar);
    JoinLength(pieces, NameVar);
    JoinLength(pieces, Capitalize(version));
  }

  /** The pieces between placeholders are kept, in order: when the capitalized
      version is not empty and does not begin with a character of the line,
      splitting the result on it gives back the line's pieces around the
      placeholder. */
  lemma PiecesKept(line: string, version: string)
    requires |version| > 0 && UpperChar(version[0]) !in line
    ensures Split(Substitute(line, version), Capitalize(version)) == Split(line, NameVar)
  {
    var pieces := Split(line, NameVar);
    var cap := Capitalize(version);
    forall k | 0 <= k < |pieces| ensures cap[0] !in pieces[k] {
      if cap[0] in pieces[k] {
        SplitPiecesFromString(line, NameVar, k, cap[0]);
      }
    }
    SplitJoin(pieces, cap);
  }

  /** With the empty version the build passes, every placeholder is deleted:
      the result is the pieces around them, concatenated. */
  lemma EmptyVersionDeletes(line: string)
    ensures Substitute(line, "") == Concat(Split(line, NameVar))
    ensures |Substitute(line, "")| == |line| - 8 * Occurrences(line, NameVar)
  {
    JoinEmpty(Split(line, NameVar));
    SubstitutedLength(line, "");
  }

  /** The strings of a list, one after another. */
  function Concat(pieces: seq<string>): string
  {
    if pieces == [] then "" else pieces[0] + Concat(pieces[1..])
  }

  lemma {:induction false} JoinEmpty(pieces: seq<string>)
    requires |pieces| >= 1
    ensures Join(pieces, "") == Concat(pieces)
  {
    if |pieces| > 1 {
      JoinEmpty(pieces[1..]);
    } else {
      assert pieces[1..] == [];
    }
  }
}

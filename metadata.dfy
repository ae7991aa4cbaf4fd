/**
 * The metadata block of the header: free text, cleaned of NUL, CR and TAB,
 * split into lines, and mapped to seven fields by line position; each field
 * is the second ':'-separated token of its line (ConvertMetaData).
 */
module MetaDataText {
  import opened Wrappers
  import opened Bytes
  import opened Reader

  datatype MetaData = MetaData(
    PatientID: string,
    PlanName: string,
    SOPInstanceUID: string,
    MUPlanned: real,
    MURemaining: real,
    Energy: string,
    BeamName: string)

  /** The number of metadata lines the decoder reads; later lines are ignored. */
  const FieldLines: nat := 7

  /** The text with every '\0', '\r' and '\t' removed ('\n' is kept). */
  function Clean(s: string): string
  {
    Remove(Remove(Remove(s, '\0'), '\r'), '\t')
  }

  /** Clean removes exactly the three characters, and keeps every other one as often as it occurs. */
  lemma CleanChars(s: string)
    ensures var r := Clean(s);
      && '\0' !in r && '\r' !in r && '\t' !in r
      && (forall c :: c != '\0' && c != '\r' && c != '\t' ==> (c in r <==> c in s))
      && multiset(r) == multiset(s)['\0' := 0]['\r' := 0]['\t' := 0]
  {
    RemoveChars(s, '\0');
    RemoveChars(Remove(s, '\0'), '\r');
    RemoveChars(Remove(Remove(s, '\0'), '\r'), '\t');
  }

  /** Clean works piece by piece, so the kept characters stay in their order. */
  lemma CleanAppend(a: string, b: string)
    ensures Clean(a + b) == Clean(a) + Clean(b)
  {
    RemoveAppend(a, b, '\0');
    RemoveAppend(Remove(a, '\0'), Remove(b, '\0'), '\r');
    RemoveAppend(Remove(Remove(a, '\0'), '\r'), Remove(Remove(b, '\0'), '\r'), '\t');
  }

  /** Text free of NUL, CR and TAB is left as it is. */
  lemma CleanPlain(s: string)
    requires '\0' !in s && '\r' !in s && '\t' !in s
    ensures Clean(s) == s
  {
    RemoveAbsent(s, '\0');
    RemoveAbsent(s, '\r');
    RemoveAbsent(s, '\t');
  }

  /** String.Split(sep): the maximal sep-free pieces, empty ones included. */
  function Split(s: string, sep: char): (parts: seq<string>)
    ensures |parts| >= 1
  {
    if s == [] then [[]]
    else
      var rest := Split(s[1..], sep);
      if s[0] == sep then [[]] + rest
      else [[s[0]] + rest[0]] + rest[1..]
  }

  /** No piece of a split contains the separator. */
  lemma {:induction false} SplitPiecesSepFree(s: string, sep: char)
    ensures forall i :: 0 <= i < |Split(s, sep)| ==> sep !in Split(s, sep)[i]
  {
    if s != [] {
      SplitPiecesSepFree(s[1..], sep);
    }
  }

  /** String.Join(sep, parts). */
  function Join(parts: seq<string>, sep: char): string
    requires |parts| >= 1
  {
    if |parts| == 1 then parts[0] else parts[0] + [sep] + Join(parts[1..], sep)
  }

  /** Splitting loses nothing: joining the pieces back gives the text. */
  lemma {:induction false} SplitJoin(s: string, sep: char)
    ensures Join(Split(s, sep), sep) == s
  {
    if s != [] {
      var rest := Split(s[1..], sep);
      SplitJoin(s[1..], sep);
      if s[0] == sep {
        assert Split(s, sep)[1..] == rest;
      } else {
        var parts := Split(s, sep);
        if |rest| == 1 {
          assert parts == [[s[0]] + rest[0]];
        } else {
          assert parts[1..] == rest[1..];
          assert Join(rest, sep) == rest[0] + [sep] + Join(rest[1..], sep);
        }
      }
    }
  }

  /** Splitting sep-free pieces joined by sep gives the pieces back. */
  lemma {:induction false} JoinSplit(parts: seq<string>, sep: char)
    requires |parts| >= 1
    requires forall i :: 0 <= i < |parts| ==> sep !in parts[i]
    ensures Split(Join(parts, sep), sep) == parts
  {
    if |parts| == 1 {
      NoSeparator(parts[0], sep);
    } else {
      JoinSplit(parts[1..], sep);
      SplitAfterPiece(parts[0], Join(parts[1..], sep), sep);
      assert parts[0] + [sep] + Join(parts[1..], sep) == parts[0] + ([sep] + Join(parts[1..], sep));
      assert parts == [parts[0]] + parts[1..];
    }
  }

  lemma {:induction false} NoSeparator(s: string, sep: char)
    requires sep !in s
    ensures Split(s, sep) == [s]
  {
    if s != [] {
      NoSeparator(s[1..], sep);
      assert s == [s[0]] + s[1..];
    }
  }

  /** A sep-free piece followed by sep becomes the first element of the split. */
  lemma {:induction false} SplitAfterPiece(a: string, rest: string, sep: char)
    requires sep !in a
    ensures Split(a + ([sep] + rest), sep) == [a] + Split(rest, sep)
  {
    if a != [] {
      SplitAfterPiece(a[1..], rest, sep);
      assert (a + ([sep] + rest))[1..] == a[1..] + ([sep] + rest);
      assert [a[0]] + a[1..] == a;
    } else {
      assert a + ([sep] + rest) == [sep] + rest;
      assert ([sep] + rest)[1..] == rest;
    }
  }

  /** Split(':').ElementAt(1): the text after the first ':' up to the next one. */
  function SecondToken(line: string): Option<string>
  {
    var parts := Split(line, ':');
    if |parts| < 2 then None else Some(parts[1])
  }

  /** A line has a second token exactly when it contains a ':'. */
  lemma SecondTokenExists(line: string)
    ensures SecondToken(line).Some? <==> ':' in line
  {
    if ':' in line {
      SplitAfterPiece(line[..FirstColon(line)], line[FirstColon(line) + 1..], ':');
      assert line == line[..FirstColon(line)] + ([':'] + line[FirstColon(line) + 1..]);
    } else {
      NoSeparator(line, ':');
    }
  }

  function FirstColon(line: string): (i: nat)
    requires ':' in line
    ensures i < |line| && line[i] == ':' && ':' !in line[..i]
  {
    if line[0] == ':' then 0
    else
      var j := FirstColon(line[1..]);
      assert line[..j + 1] == [line[0]] + line[1..][..j];
      j + 1
  }

  /** The field of a line "key:value:..." is the text between its first two colons. */
  lemma SecondTokenBetweenColons(key: string, value: string, tail: string)
    requires ':' !in key && ':' !in value
    ensures SecondToken(key + [':'] + value) == Some(value)
    ensures SecondToken(key + [':'] + value + [':'] + tail) == Some(value)
  {
    SplitAfterPiece(key, value, ':');
    assert key + [':'] + value == key + ([':'] + value);
    NoSeparator(value, ':');
    SplitAfterPiece(key, value + [':'] + tail, ':');
    assert key + [':'] + value + [':'] + tail == key + ([':'] + (value + [':'] + tail));
    SplitAfterPiece(value, tail, ':');
    assert value + [':'] + tail == value + ([':'] + tail);
  }

  /** metaDataSplit.ElementAt(k).Split(':').ElementAt(1), with its two exceptions. */
  function Field(lines: seq<string>, k: nat): Result<string, DecodeError>
  {
    if k >= |lines| then Failure(MissingLine(k))
    else Need(SecondToken(lines[k]), MissingColon(k))
  }

  /** Lines 3 and 4 carry MUPlanned and MURemaining, which go through toDouble. */
  predicate IsNumberLine(k: nat)
  {
    k == 3 || k == 4
  }

  /**
   * The tokens of lines k..6 in order, an MU token checked by toDouble as soon
   * as it is read; the first line that fails stops the conversion.
   */
  function TokensFrom(lines: seq<string>, k: nat, toDouble: string -> Option<real>): (r: Result<seq<string>, DecodeError>)
    requires k <= FieldLines
    ensures r.Success? ==> |r.value| == FieldLines - k
    ensures r.Success? ==> forall j :: k <= j < FieldLines && IsNumberLine(j) ==> toDouble(r.value[j - k]).Some?
    decreases FieldLines - k
  {
    if k == FieldLines then Success([])
    else
      var token :- Field(lines, k);
      if IsNumberLine(k) && toDouble(token).None? then Failure(NotANumber(k))
      else
        var rest :- TokensFrom(lines, k + 1, toDouble);
        Success([token] + rest)
  }

  /**
   * Fields by line position: PatientID, PlanName, SOPInstanceUID, MUPlanned,
   * MURemaining, Energy, BeamName; the two MU lines go through toDouble
   * (Convert.ToDouble, whose number syntax is not part of this model).
   */
  function ParseLines(lines: seq<string>, toDouble: string -> Option<real>): Result<MetaData, DecodeError>
  {
    var t :- TokensFrom(lines, 0, toDouble);
    Success(MetaData(t[0], t[1], t[2], toDouble(t[3]).value, toDouble(t[4]).value, t[5], t[6]))
  }

  /** The metadata lines of the block's bytes, one character per byte (multibyte UTF-8 sequences are not decoded). */
  function Lines(block: seq<byte>): seq<string>
  {
    Split(Clean(Ascii(block)), '\n')
  }

  /** ConvertMetaData after its ReadBytes. */
  function ParseMetaData(block: seq<byte>, toDouble: string -> Option<real>): Result<MetaData, DecodeError>
  {
    ParseLines(Lines(block), toDouble)
  }

  /** Fewer than seven lines is fatal: the first missing line is reported. */
  lemma TooFewLines(lines: seq<string>, toDouble: string -> Option<real>)
    requires |lines| < FieldLines
    ensures ParseLines(lines, toDouble).Failure?
    ensures var e := ParseLines(lines, toDouble).error;
      || e == MissingLine(|lines|)
      || (e.MissingColon? && e.line < |lines|)
      || (e.NotANumber? && e.line < |lines|)
  {
  }

  /** A decoded record holds exactly the second tokens of the first seven lines. */
  lemma ParsedFields(lines: seq<string>, toDouble: string -> Option<real>)
    requires ParseLines(lines, toDouble).Success?
    ensures |lines| >= FieldLines
    ensures forall k :: 0 <= k < FieldLines ==> SecondToken(lines[k]).Some?
    ensures var md := ParseLines(lines, toDouble).value;
      && md.PatientID == SecondToken(lines[0]).value
      && md.PlanName == SecondToken(lines[1]).value
      && md.SOPInstanceUID == SecondToken(lines[2]).value
      && toDouble(SecondToken(lines[3]).value) == Some(md.MUPlanned)
      && toDouble(SecondToken(lines[4]).value) == Some(md.MURemaining)
      && md.Energy == SecondToken(lines[5]).value
      && md.BeamName == SecondToken(lines[6]).value
  {
  }

  /** Lines after the seventh are ignored. */
  lemma ExtraLinesIgnored(lines: seq<string>, extra: seq<string>, toDouble: string -> Option<real>)
    requires |lines| == FieldLines
    ensures ParseLines(lines + extra, toDouble) == ParseLines(lines, toDouble)
  {
    forall k | 0 <= k < FieldLines
      ensures Field(lines + extra, k) == Field(lines, k)
    {
      assert (lines + extra)[k] == lines[k];
    }
  }

  /**
   * The parse succeeds exactly when there are seven lines, each with a ':',
   * and toDouble accepts the fields of the two MU lines.
   */
  lemma ParsesExactly(lines: seq<string>, toDouble: string -> Option<real>)
    ensures ParseLines(lines, toDouble).Success? <==>
      && |lines| >= FieldLines
      && (forall k :: 0 <= k < FieldLines ==> ':' in lines[k])
      && (forall k :: 0 <= k < FieldLines && IsNumberLine(k) ==>
            SecondToken(lines[k]).Some? && toDouble(SecondToken(lines[k]).value).Some?)
  {
    if |lines| >= FieldLines {
      forall k | 0 <= k < FieldLines
        ensures SecondToken(lines[k]).Some? <==> ':' in lines[k]
      {
        SecondTokenExists(lines[k]);
      }
      if ParseLines(lines, toDouble).Success? {
        ParsedFields(lines, toDouble);
      }
      if forall k :: 0 <= k < FieldLines ==> ':' in lines[k] {
        if forall k :: 0 <= k < FieldLines && IsNumberLine(k) ==>
             SecondToken(lines[k]).Some? && toDouble(SecondToken(lines[k]).value).Some? {
          TokensFromSucceeds(lines, 0, toDouble);
        }
      }
    } else {
      TooFewLines(lines, toDouble);
    }
  }

  /** Lines k .. 6 that all have a field, the MU ones convertible, give their tokens. */
  lemma {:induction false} TokensFromSucceeds(lines: seq<string>, k: nat, toDouble: string -> Option<real>)
    requires k <= FieldLines <= |lines|
    requires forall j :: k <= j < FieldLines ==> SecondToken(lines[j]).Some?
    requires forall j :: k <= j < FieldLines && IsNumberLine(j) ==> toDouble(SecondToken(lines[j]).value).Some?
    ensures TokensFrom(lines, k, toDouble).Success?
    decreases FieldLines - k
  {
    if k < FieldLines {
      TokensFromSucceeds(lines, k + 1, toDouble);
    }
  }

  /** The seven lines "key:value" of a metadata text, in field order. */
  function FieldLinesOf(keys: seq<string>, values: seq<string>): (lines: seq<string>)
    requires |keys| == FieldLines && |values| == FieldLines
    ensures |lines| == FieldLines
  {
    seq(FieldLines, k requires 0 <= k < FieldLines => keys[k] + [':'] + values[k])
  }

  /** Characters that never survive into a field. */
  predicate Plain(s: string)
  {
    ':' !in s && '\n' !in s && '\0' !in s && '\r' !in s && '\t' !in s
  }

  /**
   * Round trip: a block that reads as seven lines "key:value" joined by line
   * feeds, padded with NULs, parses to exactly those values (MU values through
   * toDouble).
   */
  lemma MetaDataRoundTrip(block: seq<byte>, keys: seq<string>, values: seq<string>, pad: string,
                          toDouble: string -> Option<real>)
    requires |keys| == FieldLines && |values| == FieldLines
    requires forall k :: 0 <= k < FieldLines ==> Plain(keys[k]) && Plain(values[k])
    requires toDouble(values[3]).Some? && toDouble(values[4]).Some?
    requires forall i :: 0 <= i < |pad| ==> pad[i] == '\0'
    requires Ascii(block) == Join(FieldLinesOf(keys, values), '\n') + pad
    ensures ParseMetaData(block, toDouble).Success?
    ensures var md := ParseMetaData(block, toDouble).value;
      && md.PatientID == values[0] && md.PlanName == values[1] && md.SOPInstanceUID == values[2]
      && toDouble(values[3]) == Some(md.MUPlanned) && toDouble(values[4]) == Some(md.MURemaining)
      && md.Energy == values[5] && md.BeamName == values[6]
  {
    var lines := FieldLinesOf(keys, values);
    var text := Join(lines, '\n');
    forall k | 0 <= k < FieldLines
      ensures SecondToken(lines[k]) == Some(values[k])
      ensures '\n' !in lines[k] && '\0' !in lines[k] && '\r' !in lines[k] && '\t' !in lines[k]
    {
      SecondTokenBetweenColons(keys[k], values[k], []);
    }
    JoinFree(lines, '\n', '\0');
    JoinFree(lines, '\n', '\r');
    JoinFree(lines, '\n', '\t');
    CleanAppend(text, pad);
    CleanPlain(text);
    RemoveOnly(pad, '\0');
    assert Clean(pad) == [];
    assert Clean(Ascii(block)) == text;
    JoinSplit(lines, '\n');
    assert Split(text, '\n') == lines;
    forall k | 0 <= k < FieldLines ensures ':' in lines[k] {
      assert lines[k][|keys[k]|] == ':';
    }
    ParsesExactly(lines, toDouble);
    ParsedFields(lines, toDouble);
  }

  /** A character in none of the pieces and not the separator is not in their join. */
  lemma {:induction false} JoinFree(parts: seq<string>, sep: char, c: char)
    requires |parts| >= 1 && c != sep
    requires forall i :: 0 <= i < |parts| ==> c !in parts[i]
    ensures c !in Join(parts, sep)
  {
    if |parts| > 1 {
      JoinFree(parts[1..], sep, c);
    }
  }

  /** No field can contain a line break, a colon, or a removed character. */
  lemma FieldCharacters(block: seq<byte>, toDouble: string -> Option<real>)
    requires ParseMetaData(block, toDouble).Success?
    ensures var md := ParseMetaData(block, toDouble).value;
      && PlainField(md.PatientID) && PlainField(md.PlanName) && PlainField(md.SOPInstanceUID)
      && PlainField(md.Energy) && PlainField(md.BeamName)
  {
    var lines := Lines(block);
    var text := Clean(Ascii(block));
    CleanChars(Ascii(block));
    SplitPiecesSepFree(text, '\n');
    ParsedFields(lines, toDouble);
    forall k | 0 <= k < FieldLines
      ensures PlainField(SecondToken(lines[k]).value)
    {
      SplitPieceChars(text, '\n', k);
      SecondTokenChars(lines[k]);
    }
  }

  predicate PlainField(f: string)
  {
    ':' !in f && '\n' !in f && '\0' !in f && '\r' !in f && '\t' !in f
  }

  /** Every piece of a split keeps only characters of the text. */
  lemma {:induction false} SplitPieceChars(s: string, sep: char, k: nat)
    requires k < |Split(s, sep)|
    ensures forall c :: c in Split(s, sep)[k] ==> c in s
  {
    if s != [] {
      var rest := Split(s[1..], sep);
      if s[0] == sep {
        if k > 0 { SplitPieceChars(s[1..], sep, k - 1); }
      } else if k == 0 {
        SplitPieceChars(s[1..], sep, 0);
      } else {
        SplitPieceChars(s[1..], sep, k);
      }
    }
  }

  lemma SecondTokenChars(line: string)
    requires SecondToken(line).Some?
    ensures ':' !in SecondToken(line).value
    ensures forall c :: c in SecondToken(line).value ==> c in line
  {
    SplitPieceChars(line, ':', 1);
    SplitPiecesSepFree(line, ':');
  }
}

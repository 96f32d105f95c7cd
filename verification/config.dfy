/**
 * Application settings: the numeric defaults and the comma-separated list of
 * allowed upload extensions (`Settings.allowed_file_types`).
 */
module Config {
  import opened Base
  import opened Text

  /** Idle seconds before a session expires (`session_timeout`). */
  const DefaultSessionTimeout: int := 3600
  /** Largest accepted upload, in bytes (`max_file_size`, 10 MiB). */
  const DefaultMaxFileSize: int := 10 * 1024 * 1024
  /** Raw value of `ALLOWED_FILE_TYPES` when the environment does not set it. */
  const DefaultAllowedFileTypes: string := "json,csv"

  /** The settings the core reads; the API title, host, port and key are plumbing. */
  datatype Settings = Settings(sessionTimeout: int, maxFileSize: int, allowedFileTypesRaw: string) {

    /** The `allowed_file_types` property. */
    function AllowedFileTypes(): seq<string> {
      ParseAllowedFileTypes(allowedFileTypesRaw)
    }
  }

  /** The settings when the environment sets nothing: one hour, 10 MiB, JSON and CSV. */
  function Defaults(): (s: Settings)
    ensures s.sessionTimeout == 3600 && s.maxFileSize == 10485760 && s.allowedFileTypesRaw == "json,csv"
  {
    Settings(DefaultSessionTimeout, DefaultMaxFileSize, DefaultAllowedFileTypes)
  }

  /** Number of occurrences of `c` in `s`. */
  function Count(s: string, c: char): nat {
    if s == [] then 0 else (if s[0] == c then 1 else 0) + Count(s[1..], c)
  }

  /** `s.split(sep)`: the pieces between separators; the empty string gives one empty piece. */
  function Split(s: string, sep: char): (r: seq<string>)
    ensures |r| == Count(s, sep) + 1
    ensures forall i :: 0 <= i < |r| ==> sep !in r[i]
  {
    if s == [] then [""]
    else
      var rest := Split(s[1..], sep);
      if s[0] == sep then [""] + rest
      else [[s[0]] + rest[0]] + rest[1..]
  }

  /** `sep.join(parts)` for a non-empty list of parts. */
  function Join(parts: seq<string>, sep: char): string
    requires |parts| >= 1
  {
    if |parts| == 1 then parts[0] else parts[0] + [sep] + Join(parts[1..], sep)
  }

  /** Joining the pieces back together restores the original text. */
  lemma {:induction false} JoinSplit(s: string, sep: char)
    ensures Join(Split(s, sep), sep) == s
  {
    if s != [] {
      var rest := Split(s[1..], sep);
      JoinSplit(s[1..], sep);
      if s[0] == sep {
        assert ([""] + rest)[1..] == rest;
      } else if |rest| > 1 {
        var parts := [[s[0]] + rest[0]] + rest[1..];
        assert parts[1..] == rest[1..];
        assert s == [s[0]] + s[1..];
      }
    }
  }

  /** Splitting text that starts with a separator-free `a` extends the first piece by `a`. */
  lemma {:induction false} SplitPrefix(a: string, b: string, sep: char)
    requires sep !in a
    ensures Split(a + b, sep) == [a + Split(b, sep)[0]] + Split(b, sep)[1..]
  {
    var r := Split(b, sep);
    if a != [] {
      SplitPrefix(a[1..], b, sep);
      assert (a + b)[1..] == a[1..] + b;
      var rest := Split(a[1..] + b, sep);
      assert rest[0] == a[1..] + r[0] && rest[1..] == r[1..];
      assert [(a + b)[0]] + rest[0] == a + r[0];
    } else {
      assert a + b == b;
      assert a + r[0] == r[0];
      assert r == [r[0]] + r[1..];
    }
  }

  /** Splitting a join of separator-free parts gives the parts back. */
  lemma {:induction false} SplitJoin(parts: seq<string>, sep: char)
    requires |parts| >= 1
    requires forall i :: 0 <= i < |parts| ==> sep !in parts[i]
    ensures Split(Join(parts, sep), sep) == parts
  {
    if |parts| == 1 {
      SplitPrefix(parts[0], [], sep);
      assert parts[0] + [] == parts[0];
      assert Split([], sep) == [""];
    } else {
      var tail := Join(parts[1..], sep);
      SplitJoin(parts[1..], sep);
      SplitPrefix(parts[0], [sep] + tail, sep);
      assert parts[0] + [sep] + tail == parts[0] + ([sep] + tail);
      assert ([sep] + tail)[1..] == tail;
      var r := Split([sep] + tail, sep);
      assert r == [""] + parts[1..];
      assert parts[0] + r[0] == parts[0];
      assert r[1..] == parts[1..];
      assert parts == [parts[0]] + parts[1..];
    }
  }

  /** Splitting two texts joined by a separator is splitting each, one after the other. */
  lemma {:induction false} SplitAppend(a: string, b: string, sep: char)
    ensures Split(a + [sep] + b, sep) == Split(a, sep) + Split(b, sep)
  {
    var sb := Split(b, sep);
    if a == [] {
      assert a + [sep] + b == [sep] + b;
      SplitConsSep(b, sep);
    } else {
      var c, x := a[0], a[1..];
      var y := x + [sep] + b;
      assert a + [sep] + b == [c] + y && a == [c] + x;
      SplitAppend(x, b, sep);
      var left := Split(x, sep);
      if c == sep {
        SplitConsSep(y, sep);
        SplitConsSep(x, sep);
        ConcatAssoc([""], left, sb);
      } else {
        SplitConsOther(c, y, sep);
        SplitConsOther(c, x, sep);
        assert (left + sb)[0] == left[0] && (left + sb)[1..] == left[1..] + sb;
        ConcatAssoc([[c] + left[0]], left[1..], sb);
      }
    }
  }

  lemma SplitConsSep(x: string, sep: char)
    ensures Split([sep] + x, sep) == [""] + Split(x, sep)
  {
    assert ([sep] + x)[1..] == x;
  }

  lemma SplitConsOther(c: char, x: string, sep: char)
    requires c != sep
    ensures Split([c] + x, sep) == [[c] + Split(x, sep)[0]] + Split(x, sep)[1..]
  {
    assert ([c] + x)[1..] == x;
  }

  /** A text made of white space splits into pieces made of white space. */
  lemma {:induction false} SplitAllSpace(s: string, sep: char)
    requires AllSpace(s)
    ensures forall i :: 0 <= i < |Split(s, sep)| ==> AllSpace(Split(s, sep)[i])
  {
    if s != [] {
      SplitAllSpace(s[1..], sep);
    }
  }

  /** What the comprehension keeps of one piece: its stripped text, unless that is blank. */
  function KeepPiece(p: string): (r: seq<string>)
    ensures |r| <= 1
    ensures forall i :: 0 <= i < |r| ==> r[i] != [] && IsStripped(r[i])
  {
    var t := Strip(p);
    if t == [] then [] else [t]
  }

  /** The list comprehension `[p.strip() for p in pieces if p.strip()]`. */
  function KeepNonBlank(pieces: seq<string>): (r: seq<string>)
    ensures |r| <= |pieces|
    ensures forall i :: 0 <= i < |r| ==> r[i] != [] && IsStripped(r[i])
  {
    if pieces == [] then [] else KeepPiece(pieces[0]) + KeepNonBlank(pieces[1..])
  }

  /** A character no piece contains is in no kept element. */
  lemma {:induction false} KeepNonBlankAvoids(pieces: seq<string>, c: char)
    requires forall j :: 0 <= j < |pieces| ==> c !in pieces[j]
    ensures forall i :: 0 <= i < |KeepNonBlank(pieces)| ==> c !in KeepNonBlank(pieces)[i]
  {
    if pieces != [] {
      KeepNonBlankAvoids(pieces[1..], c);
      KeepPieceAvoids(pieces[0], c, KeepNonBlank(pieces[1..]));
    }
  }

  lemma KeepPieceAvoids(p: string, c: char, rest: seq<string>)
    requires c !in p
    requires forall i :: 0 <= i < |rest| ==> c !in rest[i]
    ensures forall i :: 0 <= i < |KeepPiece(p) + rest| ==> c !in (KeepPiece(p) + rest)[i]
  {
    StripAvoids(p, c);
  }

  /** Pieces made of white space are all dropped. */
  lemma {:induction false} KeepNonBlankOfBlanks(pieces: seq<string>)
    requires forall j :: 0 <= j < |pieces| ==> AllSpace(pieces[j])
    ensures KeepNonBlank(pieces) == []
  {
    if pieces != [] {
      KeepNonBlankOfBlanks(pieces[1..]);
    }
  }

  /** The comprehension keeps the order of the pieces: it distributes over concatenation. */
  lemma {:induction false} KeepNonBlankAppend(a: seq<string>, b: seq<string>)
    ensures KeepNonBlank(a + b) == KeepNonBlank(a) + KeepNonBlank(b)
  {
    if a == [] {
      assert a + b == b;
      assert KeepNonBlank(a) == [];
      assert [] + KeepNonBlank(b) == KeepNonBlank(b);
    } else {
      var x := a[1..];
      ConsShape(a, b);
      KeepNonBlankAppend(x, b);
      KeepNonBlankCons(a[0], x + b);
      KeepNonBlankCons(a[0], x);
      ConcatAssoc(KeepPiece(a[0]), KeepNonBlank(x), KeepNonBlank(b));
    }
  }

  lemma KeepNonBlankCons(p: string, rest: seq<string>)
    ensures KeepNonBlank([p] + rest) == KeepPiece(p) + KeepNonBlank(rest)
  {
    assert ([p] + rest)[1..] == rest;
  }

  /** `allowed_file_types`: split on commas, strip each piece, drop the blank ones. */
  function ParseAllowedFileTypes(raw: string): (r: seq<string>)
    ensures forall i :: 0 <= i < |r| ==> r[i] != [] && IsStripped(r[i]) && ',' !in r[i]
    ensures |r| <= Count(raw, ',') + 1
    ensures AllSpace(raw) ==> r == []
  {
    var pieces := Split(raw, ',');
    KeepNonBlankAvoids(pieces, ',');
    if AllSpace(raw) then
      SplitAllSpace(raw, ',');
      KeepNonBlankOfBlanks(pieces);
      KeepNonBlank(pieces)
    else
      KeepNonBlank(pieces)
  }

  lemma KeepPieceOfStripped(p: string)
    requires p != [] && IsStripped(p)
    ensures KeepPiece(p) == [p]
  {
    StripFixesStripped(p);
  }

  /** Pieces that are already stripped and non-blank are all kept, unchanged. */
  lemma {:induction false} KeepNonBlankOfStripped(pieces: seq<string>)
    requires forall j :: 0 <= j < |pieces| ==> pieces[j] != [] && IsStripped(pieces[j])
    ensures KeepNonBlank(pieces) == pieces
  {
    if pieces != [] {
      var rest := pieces[1..];
      KeepPieceOfStripped(pieces[0]);
      KeepNonBlankOfStripped(rest);
      KeepNonBlankCons(pieces[0], rest);
      assert pieces == [pieces[0]] + rest;
    }
  }

  /**
   * Writing a list of types joined by commas, as the environment variable holds them, and
   * parsing it gives the same types back, in the same order.
   */
  lemma ParseJoinRoundTrip(types: seq<string>)
    requires |types| >= 1
    requires forall i :: 0 <= i < |types| ==> types[i] != [] && IsStripped(types[i]) && ',' !in types[i]
    ensures ParseAllowedFileTypes(Join(types, ',')) == types
  {
    SplitJoin(types, ',');
    KeepNonBlankOfStripped(types);
  }

  /**
   * Parsing two settings joined by a comma is parsing each, one after the other: the types
   * keep the order in which the setting lists them.
   */
  lemma ParseAppend(a: string, b: string)
    ensures ParseAllowedFileTypes(a + [','] + b) == ParseAllowedFileTypes(a) + ParseAllowedFileTypes(b)
  {
    assert ParseAllowedFileTypes(a + [','] + b) == KeepNonBlank(Split(a + [','] + b, ','));
    assert ParseAllowedFileTypes(a) == KeepNonBlank(Split(a, ','));
    assert ParseAllowedFileTypes(b) == KeepNonBlank(Split(b, ','));
    SplitAppend(a, b, ',');
    KeepNonBlankAppend(Split(a, ','), Split(b, ','));
  }

  /** A comma-free setting is one type: its strip, unless blank. */
  lemma OnePiece(raw: string, t: string)
    requires ',' !in raw && t != [] && Strip(raw) == t
    ensures ParseAllowedFileTypes(raw) == [t]
  {
    SplitJoin([raw], ',');
    assert Join([raw], ',') == raw;
    assert ParseAllowedFileTypes(raw) == KeepNonBlank(Split(raw, ','));
    assert KeepNonBlank([raw]) == KeepPiece(raw) + KeepNonBlank([raw][1..]);
  }

  /** Every piece stripped, blank ones included: `[p.strip() for p in pieces]`. */
  function StripAll(pieces: seq<string>): (r: seq<string>)
    ensures |r| == |pieces|
  {
    if pieces == [] then [] else [Strip(pieces[0])] + StripAll(pieces[1..])
  }

  /** The comprehension keeps `t` exactly when `t` is not blank and some piece strips to it. */
  lemma {:induction false} KeepNonBlankMembers(pieces: seq<string>, t: string)
    ensures t in KeepNonBlank(pieces) <==> t != [] && t in StripAll(pieces)
  {
    if pieces != [] {
      KeepNonBlankMembers(pieces[1..], t);
      var kept := KeepPiece(pieces[0]);
      assert t in kept <==> t != [] && Strip(pieces[0]) == t;
      assert t in KeepNonBlank(pieces) <==> t in kept || t in KeepNonBlank(pieces[1..]);
    }
  }

  /** `allowed_file_types` holds exactly the non-blank stripped pieces of the comma-split setting. */
  lemma AllowedTypeMembers(raw: string, t: string)
    ensures t in ParseAllowedFileTypes(raw) <==> t != [] && t in StripAll(Split(raw, ','))
  {
    var pieces := Split(raw, ',');
    assert ParseAllowedFileTypes(raw) == KeepNonBlank(pieces);
    KeepNonBlankMembers(pieces, t);
  }

  lemma SplitDefault()
    ensures Split(DefaultAllowedFileTypes, ',') == ["json", "csv"]
  {
    var parts := ["json", "csv"];
    assert Join(parts, ',') == DefaultAllowedFileTypes;
    SplitJoin(parts, ',');
  }

  /** The shipped default `"json,csv"` allows exactly `json` and `csv`, in that order. */
  lemma DefaultAllowsJsonAndCsv()
    ensures Defaults().AllowedFileTypes() == ["json", "csv"]
  {
    SplitDefault();
    assert IsStripped("json") && IsStripped("csv");
    KeepNonBlankOfStripped(["json", "csv"]);
  }
}

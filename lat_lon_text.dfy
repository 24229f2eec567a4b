/**
 * The text handling at the top of `Map.getImageCluster`: the "lat, lon" text
 * is split on ',' (Python's `str.split` with an explicit separator) and the
 * first two pieces are kept with every space removed (`str.replace(" ", "")`).
 */
module LatLonText {
  import opened Wrappers

  /** Python's `s.split(sep)`: always at least one piece, none holding `sep`;
      there is exactly one piece when `sep` does not occur in `s`. */
  function Split(s: string, sep: char): (r: seq<string>)
    ensures |r| >= 1
    ensures forall i :: 0 <= i < |r| ==> sep !in r[i]
    ensures |r| == 1 <==> sep !in s
    ensures sep !in s ==> r == [s]
    decreases |s|
  {
    if s == [] then [""]
    else if s[0] == sep then [""] + Split(s[1..], sep)
    else
      var rest := Split(s[1..], sep);
      assert s == [s[0]] + s[1..];
      [[s[0]] + rest[0]] + rest[1..]
  }

  /** Python's `sep.join(parts)`, the inverse of `Split`. */
  function Join(parts: seq<string>, sep: char): string
    decreases |parts|
  {
    if |parts| == 0 then ""
    else if |parts| == 1 then parts[0]
    else parts[0] + [sep] + Join(parts[1..], sep)
  }

  /** Joining the pieces again gives back the text that was split. */
  lemma {:induction false} JoinSplit(s: string, sep: char)
    ensures Join(Split(s, sep), sep) == s
    decreases |s|
  {
    if s == [] {
    } else if s[0] == sep {
      JoinSplit(s[1..], sep);
      assert Split(s, sep) == [""] + Split(s[1..], sep);
      assert s == [sep] + s[1..];
    } else {
      var rest := Split(s[1..], sep);
      JoinSplit(s[1..], sep);
      assert Split(s, sep) == [[s[0]] + rest[0]] + rest[1..];
      if |rest| == 1 {
        assert Join(rest, sep) == rest[0];
      } else {
        assert Join(rest, sep) == rest[0] + [sep] + Join(rest[1..], sep);
        assert ([[s[0]] + rest[0]] + rest[1..])[1..] == rest[1..];
      }
      assert s == [s[0]] + s[1..];
    }
  }

  /** A first piece without the separator is split off whole. */
  lemma {:induction false} SplitAfterPiece(a: string, sep: char, b: string)
    requires sep !in a
    ensures Split(a + [sep] + b, sep) == [a] + Split(b, sep)
    decreases |a|
  {
    var s := a + [sep] + b;
    if a == [] {
      assert s[0] == sep && s[1..] == b;
    } else {
      assert s[0] == a[0] && s[1..] == a[1..] + [sep] + b;
      SplitAfterPiece(a[1..], sep, b);
      assert [a[0]] + a[1..] == a;
    }
  }

  /** Splitting the joined pieces gives back the pieces, when none holds the separator. */
  lemma {:induction false} SplitJoin(parts: seq<string>, sep: char)
    requires |parts| >= 1
    requires forall i :: 0 <= i < |parts| ==> sep !in parts[i]
    ensures Split(Join(parts, sep), sep) == parts
    decreases |parts|
  {
    if |parts| == 1 {
    } else {
      SplitAfterPiece(parts[0], sep, Join(parts[1..], sep));
      SplitJoin(parts[1..], sep);
      assert [parts[0]] + parts[1..] == parts;
    }
  }

  /** Python's `s.replace(" ", "")`: the characters of `s` other than spaces. */
  function RemoveSpaces(s: string): (r: string)
    ensures ' ' !in r
    ensures |r| <= |s|
    ensures ' ' !in s ==> r == s
    decreases |s|
  {
    if s == [] then ""
    else
      assert s == [s[0]] + s[1..];
      (if s[0] == ' ' then "" else [s[0]]) + RemoveSpaces(s[1..])
  }

  /** Exactly the characters other than spaces are kept. */
  lemma {:induction false} RemoveSpacesKeeps(s: string)
    ensures forall c :: c in RemoveSpaces(s) <==> c in s && c != ' '
    decreases |s|
  {
    if s != [] {
      RemoveSpacesKeeps(s[1..]);
      assert s == [s[0]] + s[1..];
    }
  }

  /** Removing spaces works piece by piece, so the kept characters stay in order. */
  lemma {:induction false} RemoveSpacesAppend(a: string, b: string)
    ensures RemoveSpaces(a + b) == RemoveSpaces(a) + RemoveSpaces(b)
    decreases |a|
  {
    if a == [] {
      assert a + b == b;
    } else {
      assert (a + b)[0] == a[0] && (a + b)[1..] == a[1..] + b;
      RemoveSpacesAppend(a[1..], b);
    }
  }

  /** Lines 66-68: the latitude and longitude fields, or None where
      `latlon_deg[1]` raises IndexError because the text has no comma. */
  function ParseLatLon(text: string): (r: Option<(string, string)>)
    ensures r.None? <==> ',' !in text
    ensures r.Some? ==> ' ' !in r.value.0 && ' ' !in r.value.1
    ensures r.Some? ==> ',' !in r.value.0 && ',' !in r.value.1
  {
    var pieces := Split(text, ',');
    if |pieces| < 2 then None
    else
      RemoveSpacesKeeps(pieces[0]);
      RemoveSpacesKeeps(pieces[1]);
      Some((RemoveSpaces(pieces[0]), RemoveSpaces(pieces[1])))
  }

  /** A text that starts with a piece without commas, followed by nothing or
      by a comma, has that piece first. */
  lemma FirstPiece(a: string, rest: string)
    requires ',' !in a
    requires rest == [] || rest[0] == ','
    ensures Split(a + rest, ',')[0] == a
  {
    if rest == [] {
      assert a + rest == a;
    } else {
      var tail := rest[1..];
      assert rest == [','] + tail;
      assert a + rest == a + [','] + tail;
      SplitAfterPiece(a, ',', tail);
    }
  }

  /** The fields are the first two comma-separated pieces without their spaces;
      any further pieces are ignored. */
  lemma ParseLatLonFields(lat: string, lon: string, rest: string)
    requires ',' !in lat && ',' !in lon
    requires rest == [] || rest[0] == ','
    ensures ParseLatLon(lat + [','] + lon + rest) == Some((RemoveSpaces(lat), RemoveSpaces(lon)))
  {
    var text := lat + [','] + lon + rest;
    assert text == lat + [','] + (lon + rest);
    SplitAfterPiece(lat, ',', lon + rest);
    FirstPiece(lon, rest);
    var pieces := Split(text, ',');
    assert pieces == [lat] + Split(lon + rest, ',');
    assert |pieces| >= 2 && pieces[0] == lat && pieces[1] == lon;
  }
}

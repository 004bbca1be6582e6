/**
 * The header parsing both middlewares and the refresh handler share:
 * JavaScript's `String.prototype.split` on a one-character separator,
 * indexing into its result, and the `"Bearer "` prefix test.
 */
module Bearer {
  import opened Wrappers

  /** `s.split(sep)`: the maximal separator-free pieces, empty ones included. */
  function Split(s: string, sep: char): (fields: seq<string>)
    ensures |fields| >= 1
    ensures forall i :: 0 <= i < |fields| ==> sep !in fields[i]
    decreases |s|
  {
    if s == [] then [[]]
    else
      var rest := Split(s[1..], sep);
      if s[0] == sep then [[]] + rest
      else [[s[0]] + rest[0]] + rest[1..]
  }

  /** `fields.join(sep)`. */
  function Join(fields: seq<string>, sep: char): string
    requires |fields| >= 1
    decreases |fields|
  {
    if |fields| == 1 then fields[0] else fields[0] + [sep] + Join(fields[1..], sep)
  }

  /** Joining the pieces back gives the string that was split. */
  lemma {:induction false} JoinSplit(s: string, sep: char)
    ensures Join(Split(s, sep), sep) == s
    decreases |s|
  {
    if s != [] {
      var rest := Split(s[1..], sep);
      JoinSplit(s[1..], sep);
      if s[0] == sep {
        assert Split(s, sep) == [[]] + rest;
        assert ([[]] + rest)[1..] == rest;
      } else {
        var fields := [[s[0]] + rest[0]] + rest[1..];
        if |rest| == 1 {
          assert Join(fields, sep) == [s[0]] + rest[0];
        } else {
          assert fields[1..] == rest[1..];
          assert Join(rest, sep) == rest[0] + [sep] + Join(rest[1..], sep);
        }
      }
    }
  }

  /** Splitting a string that starts with a separator-free piece and a separator. */
  lemma {:induction false} SplitAfterPiece(a: string, sep: char, rest: string)
    requires sep !in a
    ensures Split(a + [sep] + rest, sep) == [a] + Split(rest, sep)
    decreases |a|
  {
    var s := a + [sep] + rest;
    if a == [] {
      assert s[0] == sep && s[1..] == rest;
    } else {
      assert s[0] == a[0] && s[1..] == a[1..] + [sep] + rest;
      SplitAfterPiece(a[1..], sep, rest);
      var tail := Split(s[1..], sep);
      assert tail[0] == a[1..] && tail[1..] == Split(rest, sep);
      assert [a[0]] + a[1..] == a;
    }
  }

  /** Splitting joined separator-free pieces gives the pieces back. */
  lemma {:induction false} SplitJoin(fields: seq<string>, sep: char)
    requires |fields| >= 1
    requires forall i :: 0 <= i < |fields| ==> sep !in fields[i]
    ensures Split(Join(fields, sep), sep) == fields
    decreases |fields|
  {
    if |fields| == 1 {
      SplitOfPiece(fields[0], sep);
    } else {
      SplitJoin(fields[1..], sep);
      SplitAfterPiece(fields[0], sep, Join(fields[1..], sep));
    }
  }

  lemma {:induction false} SplitOfPiece(a: string, sep: char)
    requires sep !in a
    ensures Split(a, sep) == [a]
    decreases |a|
  {
    if a != [] {
      SplitOfPiece(a[1..], sep);
      assert [a[0]] + a[1..] == a;
    }
  }

  /** `s.split(sep)[i]`: `None` (undefined) past the last piece. */
  function Field(s: string, sep: char, i: nat): (f: Option<string>)
    ensures f.Some? ==> sep !in f.value
  {
    var fields := Split(s, sep);
    if i < |fields| then Some(fields[i]) else None
  }

  const BearerPrefix := "Bearer "

  /** `header.startsWith("Bearer ")`. */
  predicate IsBearer(header: string) {
    BearerPrefix <= header
  }

  /**
   * After the `"Bearer "` prefix the second piece is there, and it is the
   * text up to the next space.
   */
  lemma BearerSecondField(header: string)
    requires IsBearer(header)
    ensures Field(header, ' ', 1) == Some(Split(header[|BearerPrefix|..], ' ')[0])
  {
    var rest := header[|BearerPrefix|..];
    assert header == "Bearer" + [' '] + rest;
    SplitAfterPiece("Bearer", ' ', rest);
  }

  /** A token without spaces behind the prefix is exactly what the second piece yields. */
  lemma BearerTokenField(token: string)
    requires ' ' !in token
    ensures Field(BearerPrefix + token, ' ', 1) == Some(token)
  {
    assert BearerPrefix + token == "Bearer" + [' '] + token;
    SplitAfterPiece("Bearer", ' ', token);
    SplitOfPiece(token, ' ');
  }
}

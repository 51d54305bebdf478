/** The comma-separated id lists the REST backend stores in text columns:
    the forms send `ids.join(',')` and read `s ? s.split(',') : []` back. */
module CommaList {

  /** No element contains the separator. */
  predicate CommaFree(xs: seq<string>) {
    forall i :: 0 <= i < |xs| ==> ',' !in xs[i]
  }

  /** `xs.join(',')`. */
  function Join(xs: seq<string>): (r: string)
  {
    if xs == [] then ""
    else if |xs| == 1 then xs[0]
    else xs[0] + "," + Join(xs[1..])
  }

  /** `s.split(',')`: the pieces between the commas, in order; there is
      always at least one piece, and no piece holds a comma. */
  function Split(s: string): (r: seq<string>)
    ensures |r| >= 1
    ensures CommaFree(r)
  {
    if s == [] then [""]
    else if s[0] == ',' then [""] + Split(s[1..])
    else
      var rest := Split(s[1..]);
      [[s[0]] + rest[0]] + rest[1..]
  }

  /** The save side: `xs.join(',')`. */
  function Encode(xs: seq<string>): string {
    Join(xs)
  }

  /** The load side: `s ? s.split(',') : []`; the empty string, which
      JavaScript treats as false, decodes to no ids at all. */
  function Decode(s: string): (r: seq<string>)
    ensures CommaFree(r)
    ensures r == [] <==> s == ""
  {
    if s == "" then [] else Split(s)
  }

  /** Splitting a comma-free string gives it back as the only piece. */
  lemma {:induction false} SplitCommaFree(a: string)
    requires ',' !in a
    ensures Split(a) == [a]
  {
    if a != [] {
      assert ',' !in a[1..];
      SplitCommaFree(a[1..]);
      assert [a[0]] + a[1..] == a;
    }
  }

  /** A comma-free first piece and whatever follows the first comma. */
  lemma {:induction false} SplitAtComma(a: string, rest: string)
    requires ',' !in a
    ensures Split(a + "," + rest) == [a] + Split(rest)
  {
    if a == [] {
      assert a + "," + rest == [','] + rest;
      assert (a + "," + rest)[1..] == rest;
    } else {
      assert (a + "," + rest)[1..] == a[1..] + "," + rest;
      assert ',' !in a[1..];
      SplitAtComma(a[1..], rest);
      assert [a[0]] + a[1..] == a;
    }
  }

  /** Splitting the join of at least one comma-free piece gives the pieces
      back. */
  lemma {:induction false} SplitJoin(xs: seq<string>)
    requires |xs| >= 1 && CommaFree(xs)
    ensures Split(Join(xs)) == xs
  {
    assert ',' !in xs[0];
    if |xs| == 1 {
      SplitCommaFree(xs[0]);
    } else {
      assert CommaFree(xs[1..]) by {
        forall i | 0 <= i < |xs[1..]| ensures ',' !in xs[1..][i] {
          assert xs[1..][i] == xs[i + 1];
        }
      }
      SplitJoin(xs[1..]);
      SplitAtComma(xs[0], Join(xs[1..]));
      assert [xs[0]] + xs[1..] == xs;
    }
  }

  /** Joining the pieces of any string gives the string back. */
  lemma {:induction false} JoinSplit(s: string)
    ensures Join(Split(s)) == s
  {
    if s != [] {
      JoinSplit(s[1..]);
      var rest := Split(s[1..]);
      assert [s[0]] + s[1..] == s;
      if s[0] == ',' {
        JoinAfterEmpty(rest);
      } else {
        JoinGrowFirst(s[0], rest);
      }
    }
  }

  /** An empty first piece joins as a leading comma. */
  lemma JoinAfterEmpty(rest: seq<string>)
    requires |rest| >= 1
    ensures Join([""] + rest) == "," + Join(rest)
  {
    assert ([""] + rest)[1..] == rest;
  }

  /** Growing the first piece by one character grows the join by it. */
  lemma JoinGrowFirst(c: char, rest: seq<string>)
    requires |rest| >= 1
    ensures Join([[c] + rest[0]] + rest[1..]) == [c] + Join(rest)
  {
    var r := [[c] + rest[0]] + rest[1..];
    if |rest| > 1 {
      assert r[1..] == rest[1..];
    }
  }

  /** A join is empty exactly for no pieces or a single empty piece. */
  lemma JoinEmpty(xs: seq<string>)
    ensures Join(xs) == "" <==> xs == [] || xs == [""]
  {
    if |xs| >= 2 {
      assert |Join(xs)| >= 1;
    }
  }

  /** Round trip from lists: reading a saved comma-free id list gives the same
      list back, for every list except the one holding a single empty id
      (which is saved as "" and read back as no ids). */
  lemma DecodeEncode(xs: seq<string>)
    requires CommaFree(xs)
    ensures Decode(Encode(xs)) == xs <==> xs != [""]
  {
    JoinEmpty(xs);
    if |xs| >= 1 && xs != [""] {
      SplitJoin(xs);
    }
  }

  /** In particular lists of non-empty comma-free ids survive the round trip. */
  lemma DecodeEncodeIds(xs: seq<string>)
    requires CommaFree(xs)
    requires forall i :: 0 <= i < |xs| ==> xs[i] != ""
    ensures Decode(Encode(xs)) == xs
  {
    DecodeEncode(xs);
  }

  /** Round trip from strings: saving what was read gives the stored text
      back, so the stored text and the decoded list determine each other. */
  lemma EncodeDecode(s: string)
    ensures Encode(Decode(s)) == s
  {
    if s != "" {
      JoinSplit(s);
    }
  }

  /** An id containing a comma does not survive: "a,b" comes back as two ids. */
  lemma CommaInIdSplits()
    ensures Decode(Encode(["a,b"])) == ["a", "b"]
  {
    assert Encode(["a,b"]) == "a,b";
    SplitAtComma("a", "b");
    SplitCommaFree("b");
    assert "a" + "," + "b" == "a,b";
  }
}

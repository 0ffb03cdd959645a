/** Name normalisation of the customer search form: the submitted text is
    split on " ", the first character of every piece is upper-cased and the
    pieces are joined back with " ".

    `Split` and `Join` follow JavaScript's `String.prototype.split(" ")` and
    `Array.prototype.join(" ")`: splitting never drops a piece, so the empty
    text gives one empty piece and two adjacent spaces give an empty piece
    between them. Indexing an empty piece yields `undefined`, and calling
    `toUpperCase` on it throws a `TypeError`. */
module Names {
  import opened Results

  const Space: char := ' '

  /** Upper-casing restricted to ASCII: a-z become A-Z, every other
      character is left as it is. */
  function UpperAscii(c: char): (u: char)
    ensures 'a' <= c <= 'z' ==> 'A' <= u <= 'Z' && u as int + 32 == c as int
    ensures !('a' <= c <= 'z') ==> u == c
    ensures !('a' <= u <= 'z')
  {
    if 'a' <= c <= 'z' then (c as int - 32) as char else c
  }

  /** Position of the first space of `s`. */
  function FirstSpace(s: string): (i: nat)
    requires Space in s
    ensures i < |s| && s[i] == Space
    ensures forall j :: 0 <= j < i ==> s[j] != Space
  {
    if s[0] == Space then 0
    else
      assert s == [s[0]] + s[1..];
      1 + FirstSpace(s[1..])
  }

  /** `s.split(" ")`: the maximal space-free runs of `s`, in order, including
      empty ones at the ends and between adjacent spaces. */
  function Split(s: string): (parts: seq<string>)
    ensures |parts| >= 1
    ensures forall k :: 0 <= k < |parts| ==> Space !in parts[k]
    decreases |s|
  {
    if Space in s then
      var i := FirstSpace(s);
      [s[..i]] + Split(s[i + 1..])
    else
      [s]
  }

  /** `parts.join(" ")`. */
  function Join(parts: seq<string>): string
  {
    if |parts| == 0 then ""
    else if |parts| == 1 then parts[0]
    else parts[0] + [Space] + Join(parts[1..])
  }

  /** `part[0].toUpperCase() + part.substring(1)`. */
  function CapitalizeWord(part: string): (r: Result<string>)
    ensures r.Err? <==> part == ""
    ensures r.Err? ==> r.error == TypeError
    ensures r.Ok? ==> |r.value| == |part| && r.value[0] == UpperAscii(part[0])
    ensures r.Ok? ==> r.value[1..] == part[1..]
  {
    if part == "" then Err(TypeError)
    else Ok([UpperAscii(part[0])] + part[1..])
  }

  /** `parts.map(CapitalizeWord)`: throws as soon as one piece throws. */
  function CapitalizeParts(parts: seq<string>): (r: Result<seq<string>>)
    ensures r.Ok? <==> forall k :: 0 <= k < |parts| ==> parts[k] != ""
    ensures r.Err? ==> r.error == TypeError
    ensures r.Ok? ==> |r.value| == |parts|
    ensures r.Ok? ==> forall k :: 0 <= k < |parts| ==> CapitalizeWord(parts[k]) == Ok(r.value[k])
  {
    if |parts| == 0 then Ok([])
    else
      match CapitalizeWord(parts[0])
      case Err(e) => Err(e)
      case Ok(w) =>
        match CapitalizeParts(parts[1..])
        case Err(e) => Err(e)
        case Ok(ws) => Ok([w] + ws)
  }

  /** The whole normalisation expression: split, capitalise every piece, join. */
  function CapitalizeName(name: string): Result<string>
  {
    match CapitalizeParts(Split(name))
    case Err(e) => Err(e)
    case Ok(words) => Ok(Join(words))
  }

  // ---------------------------------------------------------------------------
  // A character-wise reference description of the normalisation.

  /** Position `i` begins a piece: it is the first character or follows a space. */
  predicate IsWordStart(s: string, i: int)
    requires 0 <= i < |s|
  {
    i == 0 || s[i - 1] == Space
  }

  /** No piece of `Split(s)` is empty: `s` is non-empty, neither starts nor
      ends with a space, and never has two spaces in a row. */
  predicate NoEmptyPiece(s: string)
  {
    && |s| > 0
    && s[0] != Space
    && s[|s| - 1] != Space
    && forall i :: 0 <= i < |s| - 1 ==> s[i] != Space || s[i + 1] != Space
  }

  /** Upper-case every character that begins a piece, keep every other one. */
  function CapitalizeCharwise(s: string): (r: string)
  {
    seq(|s|, i requires 0 <= i < |s| => if IsWordStart(s, i) then UpperAscii(s[i]) else s[i])
  }

  // ---------------------------------------------------------------------------
  // Split and Join are inverse to each other.

  /** Joining the pieces of a split gives back the original text. */
  lemma {:induction false} SplitJoin(s: string)
    ensures Join(Split(s)) == s
    decreases |s|
  {
    if Space in s {
      var i := FirstSpace(s);
      var rest := Split(s[i + 1..]);
      assert Split(s) == [s[..i]] + rest;
      assert ([s[..i]] + rest)[1..] == rest;
      SplitJoin(s[i + 1..]);
      assert Join(Split(s)) == s[..i] + [Space] + s[i + 1..];
      assert s == s[..i] + [s[i]] + s[i + 1..];
    }
  }

  /** The first space of `a + [Space] + b`, when `a` has none, is right after `a`. */
  lemma FirstSpaceOfJoin(a: string, b: string)
    requires Space !in a
    ensures Space in a + [Space] + b
    ensures FirstSpace(a + [Space] + b) == |a|
  {
    var s := a + [Space] + b;
    assert s[|a|] == Space;
    assert forall j :: 0 <= j < |a| ==> s[j] == a[j] && a[j] in a;
  }

  /** A text made of a space-free piece, a space and a rest splits into
      that piece followed by the pieces of the rest. */
  lemma SplitAtFirstSpace(a: string, b: string)
    requires Space !in a
    ensures Split(a + [Space] + b) == [a] + Split(b)
  {
    var s := a + [Space] + b;
    FirstSpaceOfJoin(a, b);
    assert s[..|a|] == a;
    assert s[|a| + 1..] == b;
  }

  /** Splitting a join of space-free pieces gives the pieces back. */
  lemma {:induction false} JoinSplit(parts: seq<string>)
    requires |parts| >= 1
    requires forall k :: 0 <= k < |parts| ==> Space !in parts[k]
    ensures Split(Join(parts)) == parts
    decreases |parts|
  {
    if |parts| > 1 {
      var a, rest := parts[0], parts[1..];
      assert Join(parts) == a + [Space] + Join(rest);
      SplitAtFirstSpace(a, Join(rest));
      JoinSplit(rest);
      assert [a] + rest == parts;
    }
  }

  /** Splitting gives exactly one piece more than there are spaces. */
  lemma {:induction false} SplitCount(s: string)
    ensures |Split(s)| == multiset(s)[Space] + 1
    decreases |s|
  {
    if Space in s {
      var i := FirstSpace(s);
      assert s == s[..i] + [Space] + s[i + 1..];
      assert Space !in s[..i] by {
        forall j | 0 <= j < i ensures s[..i][j] != Space {}
      }
      assert multiset(s[..i])[Space] == 0;
      assert multiset(s)[Space] == multiset(s[..i])[Space] + 1 + multiset(s[i + 1..])[Space];
      SplitCount(s[i + 1..]);
    } else {
      assert multiset(s)[Space] == 0;
    }
  }

  // ---------------------------------------------------------------------------
  // The normalisation agrees with the character-wise description.

  /** After the first space, at position `i > 0`, the rest of the text has no
      empty piece exactly when the whole text has none. */
  lemma NoEmptyPieceAfterSpace(s: string, i: nat)
    requires Space in s && i == FirstSpace(s) && i > 0
    ensures NoEmptyPiece(s) <==> NoEmptyPiece(s[i + 1..])
  {
    var t := s[i + 1..];
    if NoEmptyPiece(s) {
      assert i < |s| - 1;
      assert t[0] == s[i + 1];
      assert t[|t| - 1] == s[|s| - 1];
      forall j | 0 <= j < |t| - 1
        ensures t[j] != Space || t[j + 1] != Space
      {
        assert t[j] == s[i + 1 + j] && t[j + 1] == s[i + 1 + j + 1];
      }
    }
    if NoEmptyPiece(t) {
      assert s[0] != Space;
      assert s[|s| - 1] == t[|t| - 1];
      forall j | 0 <= j < |s| - 1
        ensures s[j] != Space || s[j + 1] != Space
      {
        if j < i {
        } else if j == i {
          assert s[j + 1] == t[0];
        } else {
          assert s[j] == t[j - i - 1] && s[j + 1] == t[j - i];
        }
      }
    }
  }

  /** The character-wise description factors at the first space `i > 0`:
      the first piece with its first character upper-cased, the space, then
      the description of the rest. */
  lemma CharwiseAfterSpace(s: string, i: nat)
    requires Space in s && i == FirstSpace(s) && i > 0
    ensures CapitalizeCharwise(s)
         == [UpperAscii(s[0])] + s[1..i] + [Space] + CapitalizeCharwise(s[i + 1..])
  {
    var t := s[i + 1..];
    var lhs := CapitalizeCharwise(s);
    var rhs := [UpperAscii(s[0])] + s[1..i] + [Space] + CapitalizeCharwise(t);
    assert |lhs| == |rhs|;
    forall j | 0 <= j < |s|
      ensures lhs[j] == rhs[j]
    {
      if j == 0 {
      } else if j < i {
        assert !IsWordStart(s, j);
      } else if j == i {
        assert !IsWordStart(s, j);
      } else {
        assert s[j] == t[j - i - 1];
        assert IsWordStart(s, j) <==> IsWordStart(t, j - i - 1);
      }
    }
  }

  /** Without spaces the description upper-cases the first character only. */
  lemma CharwiseWithoutSpace(s: string)
    requires Space !in s && s != ""
    ensures CapitalizeCharwise(s) == [UpperAscii(s[0])] + s[1..]
    ensures NoEmptyPiece(s)
  {
    var lhs := CapitalizeCharwise(s);
    var rhs := [UpperAscii(s[0])] + s[1..];
    forall j | 0 <= j < |s|
      ensures lhs[j] == rhs[j]
    {
      if j > 0 {
        assert s[j - 1] in s;
        assert !IsWordStart(s, j);
      }
    }
    assert s[|s| - 1] in s;
    forall j | 0 <= j < |s| - 1
      ensures s[j] != Space || s[j + 1] != Space
    {
      assert s[j] in s;
    }
  }

  /** The normalisation throws exactly when some piece is empty, and
      otherwise upper-cases the characters that begin a piece and keeps all
      others. */
  lemma {:induction false} CapitalizeNameSpec(s: string)
    ensures CapitalizeName(s)
         == if NoEmptyPiece(s) then Ok(CapitalizeCharwise(s)) else Err(TypeError)
    decreases |s|
  {
    if Space !in s {
      assert Split(s) == [s];
      if s != "" {
        CharwiseWithoutSpace(s);
        assert [s][1..] == [];
        assert CapitalizeParts([]) == Ok([]);
        var w := [UpperAscii(s[0])] + s[1..];
        assert CapitalizeWord([s][0]) == Ok(w);
        assert [w] + [] == [w];
        assert CapitalizeParts([s]) == Ok([[UpperAscii(s[0])] + s[1..]]);
      }
    } else {
      var i := FirstSpace(s);
      var head, tail := s[..i], s[i + 1..];
      var rest := Split(tail);
      assert Split(s) == [head] + rest;
      assert ([head] + rest)[1..] == rest;
      if i == 0 {
        assert head == "";
        assert !NoEmptyPiece(s);
      } else {
        CapitalizeNameSpec(tail);
        NoEmptyPieceAfterSpace(s, i);
        if NoEmptyPiece(tail) {
          var w := [UpperAscii(s[0])] + s[1..i];
          assert head[0] == s[0] && head[1..] == s[1..i];
          assert CapitalizeWord(head) == Ok(w);
          var ws := CapitalizeParts(rest).value;
          assert Join(ws) == CapitalizeCharwise(tail);
          assert CapitalizeParts([head] + rest) == Ok([w] + ws);
          assert ([w] + ws)[1..] == ws;
          assert Join([w] + ws) == w + [Space] + Join(ws);
          CharwiseAfterSpace(s, i);
        }
      }
    }
  }

  /** The normalisation throws exactly when a piece of the split is empty. */
  lemma CapitalizeFailsOnEmptyPiece(s: string)
    ensures CapitalizeName(s).Err? <==> exists k :: 0 <= k < |Split(s)| && Split(s)[k] == ""
    ensures CapitalizeName(s).Err? ==> CapitalizeName(s).error == TypeError
  {
    var parts := Split(s);
    var r := CapitalizeParts(parts);
    assert CapitalizeName(s).Err? <==> r.Err?;
    if r.Err? {
      var k :| 0 <= k < |parts| && parts[k] == "";
      assert Split(s)[k] == "";
    } else {
      assert forall k :: 0 <= k < |parts| ==> parts[k] != "";
    }
  }

  /** A successful normalisation keeps the length and every space where it
      was, upper-cases the first character of every piece and leaves every
      other character unchanged. */
  lemma CapitalizeKeepsShape(s: string)
    requires CapitalizeName(s).Ok?
    ensures var r := CapitalizeName(s).value;
      && |r| == |s|
      && (forall i :: 0 <= i < |s| ==> (r[i] == Space <==> s[i] == Space))
      && (forall i :: 0 <= i < |s| && IsWordStart(s, i) ==> r[i] == UpperAscii(s[i]))
      && (forall i :: 0 <= i < |s| && !IsWordStart(s, i) ==> r[i] == s[i])
  {
    CapitalizeNameSpec(s);
  }

  /** The output splits into exactly the capitalised pieces of the input:
      the number of pieces is the same and piece `k` of the output is piece
      `k` of the input with its first character upper-cased. */
  lemma CapitalizePieces(s: string)
    requires CapitalizeName(s).Ok?
    ensures var r := CapitalizeName(s).value;
      && |Split(r)| == |Split(s)|
      && forall k :: 0 <= k < |Split(s)| ==>
           Split(r)[k] == [UpperAscii(Split(s)[k][0])] + Split(s)[k][1..]
  {
    var ws := CapitalizeParts(Split(s)).value;
    forall k | 0 <= k < |ws|
      ensures Space !in ws[k]
    {
      var p := Split(s)[k];
      assert ws[k] == [UpperAscii(p[0])] + p[1..];
      forall j | 0 <= j < |ws[k]|
        ensures ws[k][j] != Space
      {
        assert p[j] in p;
        if j > 0 {
          assert ws[k][j] == p[j];
        }
      }
    }
    JoinSplit(ws);
  }

  /** Two texts with spaces at the same positions have the same piece
      boundaries, and one has an empty piece exactly when the other does. */
  lemma SameSpaces(s: string, r: string)
    requires |r| == |s|
    requires forall i :: 0 <= i < |s| ==> (r[i] == Space <==> s[i] == Space)
    ensures NoEmptyPiece(r) <==> NoEmptyPiece(s)
    ensures forall i :: 0 <= i < |s| ==> (IsWordStart(r, i) <==> IsWordStart(s, i))
  {
    if |s| > 0 {
      assert r[0] == Space <==> s[0] == Space;
      assert r[|r| - 1] == Space <==> s[|s| - 1] == Space;
    }
  }

  /** Normalising an already normalised name changes nothing. */
  lemma CapitalizeIdempotent(s: string)
    requires CapitalizeName(s).Ok?
    ensures CapitalizeName(CapitalizeName(s).value) == CapitalizeName(s)
  {
    var r := CapitalizeName(s).value;
    CapitalizeKeepsShape(s);
    SameSpaces(s, r);
    CapitalizeNameSpec(s);
    assert NoEmptyPiece(r);
    var c := CapitalizeCharwise(r);
    forall i | 0 <= i < |r|
      ensures c[i] == r[i]
    {
      if IsWordStart(r, i) {
        assert r[i] == UpperAscii(s[i]);
      }
    }
    assert c == r;
    CapitalizeNameSpec(r);
  }

  /** Worked input: a plain two-word name. */
  lemma CapitalizeExampleTwoWords()
    ensures CapitalizeName("jane doe") == Ok("Jane Doe")
  {
    var s := "jane doe";
    assert NoEmptyPiece(s) by {
      forall i | 0 <= i < |s| - 1
        ensures s[i] != Space || s[i + 1] != Space
      {
        if i == 0 {} else if i == 1 {} else if i == 2 {} else if i == 3 {}
        else if i == 4 {} else if i == 5 {} else {}
      }
    }
    var c := CapitalizeCharwise(s);
    forall i | 0 <= i < |s|
      ensures c[i] == "Jane Doe"[i]
    {
      if i != 0 && i != 5 {
        assert !IsWordStart(s, i);
      }
    }
    assert c == "Jane Doe";
    CapitalizeNameSpec(s);
  }

  /** Worked inputs that throw: the empty text, two spaces in a row, and a
      leading space. */
  lemma CapitalizeExamplesThrow()
    ensures CapitalizeName("") == Err(TypeError)
    ensures CapitalizeName("jane  doe") == Err(TypeError)
    ensures CapitalizeName(" jane") == Err(TypeError)
  {
    CapitalizeNameSpec("");
    CapitalizeNameSpec("jane  doe");
    assert "jane  doe"[4] == Space && "jane  doe"[5] == Space;
    CapitalizeNameSpec(" jane");
  }
}

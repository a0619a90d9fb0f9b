/** Small types shared by every other module. */
module Common {

  newtype byte = x: int | 0 <= x < 256

  datatype Option<+T> = None | Some(value: T)

  datatype Result<+T, +E> = Ok(value: T) | Err(error: E)

  function Min(a: int, b: int): int {
    if a <= b then a else b
  }

  function Max(a: int, b: int): int {
    if a <= b then b else a
  }

  /** White space, of the characters below 128. */
  predicate Space(c: char) {
    c == ' ' || '\t' <= c <= '\r'
  }

  /** An id of a device or of a file. */
  datatype Id = Id(text: string) {
    predicate Blank() {
      forall c :: c in text ==> Space(c)
    }

    /** `strings.TrimSpace`. */
    function Trimmed(): Id {
      Id(TrimRight(TrimLeft(text)))
    }
  }

  function TrimLeft(s: string): string {
    if s != "" && Space(s[0]) then TrimLeft(s[1..]) else s
  }

  function TrimRight(s: string): string {
    if s != "" && Space(s[|s| - 1]) then TrimRight(s[..|s| - 1]) else s
  }

  lemma {:induction false} TrimLeftSplits(s: string) returns (pre: string)
    ensures s == pre + TrimLeft(s) && Id(pre).Blank()
    ensures TrimLeft(s) != "" ==> !Space(TrimLeft(s)[0])
  {
    if s != "" && Space(s[0]) {
      pre := TrimLeftSplits(s[1..]);
      pre := [s[0]] + pre;
    } else {
      pre := "";
    }
  }

  lemma {:induction false} TrimRightSplits(s: string) returns (post: string)
    ensures s == TrimRight(s) + post && Id(post).Blank()
    ensures TrimRight(s) != "" ==> !Space(TrimRight(s)[|TrimRight(s)| - 1])
  {
    if s != "" && Space(s[|s| - 1]) {
      post := TrimRightSplits(s[..|s| - 1]);
      post := post + [s[|s| - 1]];
    } else {
      post := "";
    }
  }

  /** A trimmed id is what stands between the white space at both ends, and has none there itself. */
  lemma TrimmedExactly(id: Id) returns (pre: string, post: string)
    ensures id.text == pre + id.Trimmed().text + post && Id(pre).Blank() && Id(post).Blank()
    ensures id.Trimmed().text != "" ==>
      && !Space(id.Trimmed().text[0])
      && !Space(id.Trimmed().text[|id.Trimmed().text| - 1])
  {
    pre := TrimLeftSplits(id.text);
    post := TrimRightSplits(TrimLeft(id.text));
  }

  /** Nothing is left exactly of a blank id. */
  lemma BlankTrimsToNothing(id: Id)
    ensures id.Blank() <==> id.Trimmed().text == ""
  {
    var pre, post := TrimmedExactly(id);
    if id.Trimmed().text != "" {
      assert id.text[|pre|] == id.Trimmed().text[0];
    }
  }
}

/** `ParserIterator` of assembler.py: a text and one mutable index into it. */
module Cursor {
  import opened Wrappers

  class Cursor {
    const text: string
    var idx: nat

    /** The index never passes the end of the text. */
    ghost predicate Valid()
      reads this
    {
      idx <= |text|
    }

    constructor (text: string)
      ensures this.text == text && idx == 0 && Valid()
    {
      this.text := text;
      idx := 0;
    }

    /** `has_next`. */
    predicate HasNext()
      reads this
    {
      idx < |text|
    }

    /** `__next__`: the character at the index, which then moves on by one; at the end of the
        text, StopIteration (None) and the index stays. */
    method Next() returns (c: Option<char>)
      modifies this
      ensures old(idx) < |text| ==> c == Some(text[old(idx)]) && idx == old(idx) + 1
      ensures old(idx) >= |text| ==> c == None && idx == old(idx)
      ensures old(Valid()) ==> Valid()
    {
      if idx >= |text| {
        return None;
      }
      c := Some(text[idx]);
      idx := idx + 1;
    }

    /** `go_back`: one step back, or ValueError (false) at the start. */
    method GoBack() returns (ok: bool)
      modifies this
      ensures ok <==> old(idx) > 0
      ensures idx == if ok then old(idx) - 1 else old(idx)
      ensures old(Valid()) ==> Valid()
    {
      if idx <= 0 {
        return false;
      }
      idx := idx - 1;
      ok := true;
    }
  }
}

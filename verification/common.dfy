/**
 Small shared datatypes and the text helpers that both the plugin and the worker
 rely on. A string is a sequence of characters that stand for bytes.
 */
module Common {

  datatype Option<+T> = None | Some(value: T)

  datatype Result<+T, +E> = Ok(value: T) | Err(error: E)

  /** `std::isspace` in the C locale. */
  predicate IsSpace(c: char) {
    c == ' ' || '\t' <= c <= '\r'
  }

  predicate IsDigit(c: char) {
    '0' <= c <= '9'
  }

  /** The text `part` stands in `body` at position `i`. */
  predicate At(body: string, i: nat, part: string): (b: bool)
    ensures b ==> i + |part| <= |body|
    decreases part
  {
    if part == "" then i <= |body|
    else i < |body| && body[i] == part[0] && At(body, i + 1, part[1..])
  }

  lemma {:induction false} AtSlice(body: string, i: nat, part: string)
    ensures At(body, i, part) <==> i + |part| <= |body| && body[i..i + |part|] == part
    decreases part
  {
    if part != "" {
      AtSlice(body, i + 1, part[1..]);
      if i + |part| <= |body| {
        var slice := body[i..i + |part|];
        assert slice[1..] == body[i + 1..i + |part|];
        assert slice == [slice[0]] + slice[1..] && part == [part[0]] + part[1..];
      }
    }
  }

  lemma AtIndex(body: string, i: nat, part: string, k: nat)
    requires At(body, i, part) && k < |part|
    ensures i + |part| <= |body| && body[i + k] == part[k]
  {
    AtSlice(body, i, part);
    assert body[i..i + |part|][k] == part[k];
  }

  lemma AtConcat(body: string, i: nat, a: string, b: string)
    ensures At(body, i, a + b) <==> At(body, i, a) && At(body, i + |a|, b)
  {
    AtSlice(body, i, a + b);
    AtSlice(body, i, a);
    AtSlice(body, i + |a|, b);
    if i + |a + b| <= |body| {
      var slice := body[i..i + |a + b|];
      assert slice[..|a|] == body[i..i + |a|] && slice[|a|..] == body[i + |a|..i + |a| + |b|];
      assert (a + b)[..|a|] == a && (a + b)[|a|..] == b;
      assert slice == slice[..|a|] + slice[|a|..];
    }
  }

  lemma AtChar(body: string, i: nat, c: char)
    ensures At(body, i, [c]) <==> i < |body| && body[i] == c
  {
    assert [c][1..] == "";
  }
}

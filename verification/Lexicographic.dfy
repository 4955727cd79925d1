/** The order that tuples of texts are compared in. */
module Lexicographic {

  function CompareText(a: string, b: string): int {
    if a == b then 0
    else if a == [] then -1
    else if b == [] then 1
    else if a[0] < b[0] then -1
    else if b[0] < a[0] then 1
    else CompareText(a[1..], b[1..])
  }

  lemma {:induction false} TextTotal(a: string, b: string)
    ensures CompareText(a, b) == 0 <==> a == b
    ensures CompareText(a, b) == -CompareText(b, a)
  {
    if a != [] && b != [] && a[0] == b[0] {
      TextTotal(a[1..], b[1..]);
      assert a == [a[0]] + a[1..] && b == [b[0]] + b[1..];
    }
  }

  lemma {:induction false} TextTransitive(a: string, b: string, c: string)
    requires CompareText(a, b) <= 0 && CompareText(b, c) <= 0
    ensures CompareText(a, c) <= 0
    ensures CompareText(a, c) == 0 ==> CompareText(a, b) == 0 && CompareText(b, c) == 0
  {
    TextTotal(a, b);
    TextTotal(b, c);
    TextTotal(a, c);
    if a != [] && b != [] && c != [] && a[0] == b[0] == c[0] {
      TextTotal(a[1..], b[1..]);
      TextTotal(b[1..], c[1..]);
      TextTransitive(a[1..], b[1..], c[1..]);
    }
  }

  function CompareTexts(a: seq<string>, b: seq<string>): int {
    if a == b then 0
    else if a == [] then -1
    else if b == [] then 1
    else if a[0] != b[0] then CompareText(a[0], b[0])
    else CompareTexts(a[1..], b[1..])
  }

  lemma {:induction false} TextsTotal(a: seq<string>, b: seq<string>)
    ensures CompareTexts(a, b) == 0 <==> a == b
    ensures CompareTexts(a, b) == -CompareTexts(b, a)
  {
    if a != [] && b != [] {
      TextTotal(a[0], b[0]);
      TextsTotal(a[1..], b[1..]);
      assert a == [a[0]] + a[1..] && b == [b[0]] + b[1..];
    }
  }

  lemma {:induction false} TextsTransitive(a: seq<string>, b: seq<string>, c: seq<string>)
    requires CompareTexts(a, b) <= 0 && CompareTexts(b, c) <= 0
    ensures CompareTexts(a, c) <= 0
    ensures CompareTexts(a, c) == 0 ==> CompareTexts(a, b) == 0 && CompareTexts(b, c) == 0
  {
    TextsTotal(a, b);
    TextsTotal(b, c);
    TextsTotal(a, c);
    if a != [] && b != [] && c != [] {
      TextTotal(a[0], b[0]);
      TextTotal(b[0], c[0]);
      TextTotal(a[0], c[0]);
      if a[0] == b[0] == c[0] {
        TextsTotal(a[1..], b[1..]);
        TextsTotal(b[1..], c[1..]);
        TextsTransitive(a[1..], b[1..], c[1..]);
      } else if CompareText(a[0], b[0]) <= 0 && CompareText(b[0], c[0]) <= 0 {
        TextTransitive(a[0], b[0], c[0]);
      }
    }
  }
}

/** String helpers shared by the category-label formatter and by the query
    strings the listing page sends to the products route: `split` and `join`
    on one separator character, ASCII upper-casing, and the decimal rendering
    of a number inside a template literal. */
module Text {

  /** `s.split(sep)`: the pieces between separators, in order. Like the
      JavaScript method it never returns an empty list ("" splits to [""]). */
  function Split(s: string, sep: char): (r: seq<string>)
    ensures |r| >= 1
    ensures forall i :: 0 <= i < |r| ==> sep !in r[i]
    ensures forall i, c :: 0 <= i < |r| && c in r[i] ==> c in s
    decreases |s|
  {
    if s == [] then [[]]
    else
      var rest := Split(s[1..], sep);
      assert forall c :: c in s[1..] ==> c in s;
      if s[0] == sep then [[]] + rest
      else [[s[0]] + rest[0]] + rest[1..]
  }

  /** `ws.join(sep)`: the first word opens the text, and a separator follows
      it whenever another word comes after. */
  function Join(ws: seq<string>, sep: char): (r: string)
    ensures |ws| >= 1 ==> ws[0] <= r
    ensures |ws| >= 2 ==> |r| > |ws[0]| && r[|ws[0]|] == sep
  {
    if |ws| == 0 then []
    else if |ws| == 1 then ws[0]
    else ws[0] + [sep] + Join(ws[1..], sep)
  }

  lemma JoinCons(w: string, ws: seq<string>, sep: char)
    requires |ws| >= 1
    ensures Join([w] + ws, sep) == w + [sep] + Join(ws, sep)
  {
    assert ([w] + ws)[1..] == ws;
  }

  /** Prepending a character to the first word prepends it to the joined string. */
  lemma JoinHeadChar(c: char, w: string, ws: seq<string>, sep: char)
    ensures Join([[c] + w] + ws, sep) == [c] + Join([w] + ws, sep)
  {
    if ws != [] {
      JoinCons([c] + w, ws, sep);
      JoinCons(w, ws, sep);
    }
  }

  /** Splitting after a separator-free word peels that word off. */
  lemma {:induction false} SplitAfterWord(w: string, t: string, sep: char)
    requires sep !in w
    ensures Split(w + [sep] + t, sep) == [w] + Split(t, sep)
    decreases |w|
  {
    var s := w + [sep] + t;
    if w == [] {
      assert s[1..] == t;
    } else {
      assert s[1..] == w[1..] + [sep] + t;
      SplitAfterWord(w[1..], t, sep);
      assert [w[0]] + w[1..] == w;
    }
  }

  /** A string without the separator splits to itself alone. */
  lemma {:induction false} SplitWithoutSeparator(w: string, sep: char)
    requires sep !in w
    ensures Split(w, sep) == [w]
    decreases |w|
  {
    if w != [] {
      SplitWithoutSeparator(w[1..], sep);
      assert [w[0]] + w[1..] == w;
    }
  }

  /** Joining the pieces of a split gives back the original string. */
  lemma {:induction false} JoinSplit(s: string, sep: char)
    ensures Join(Split(s, sep), sep) == s
    decreases |s|
  {
    if s != [] {
      var rest := Split(s[1..], sep);
      JoinSplit(s[1..], sep);
      if s[0] == sep {
        JoinCons([], rest, sep);
      } else {
        assert rest == [rest[0]] + rest[1..];
        JoinHeadChar(s[0], rest[0], rest[1..], sep);
        assert [s[0]] + s[1..] == s;
      }
    }
  }

  /** Splitting a join of separator-free words gives back the words. */
  lemma {:induction false} SplitJoin(ws: seq<string>, sep: char)
    requires |ws| >= 1
    requires forall i :: 0 <= i < |ws| ==> sep !in ws[i]
    ensures Split(Join(ws, sep), sep) == ws
    decreases |ws|
  {
    if |ws| == 1 {
      SplitWithoutSeparator(ws[0], sep);
    } else {
      SplitJoin(ws[1..], sep);
      SplitAfterWord(ws[0], Join(ws[1..], sep), sep);
      assert [ws[0]] + ws[1..] == ws;
    }
  }

  /** ASCII `toUpperCase` of one character: 'a'..'z' become 'A'..'Z' and
      every other character is left as it is. */
  function ToUpper(c: char): (u: char)
    ensures 'a' <= c <= 'z' ==> u as int == c as int - 32
    ensures !('a' <= u <= 'z')
    ensures (u == c) <==> !('a' <= c <= 'z')
    ensures u == '-' <==> c == '-'
    ensures u == ' ' <==> c == ' '
  {
    if 'a' <= c <= 'z' then (c as int - 32) as char else c
  }

  predicate IsDigit(c: char)
  {
    '0' <= c <= '9'
  }

  function DigitChar(d: nat): (c: char)
    requires d < 10
  {
    ('0' as int + d) as char
  }

  /** The decimal text of a non-negative number, as a template literal prints it:
      digits only, and no leading zero unless the number is zero. */
  function NatToDecimal(n: nat): (s: string)
    ensures |s| >= 1
    ensures forall i :: 0 <= i < |s| ==> IsDigit(s[i])
    ensures s[0] == '0' ==> n == 0
  {
    if n < 10 then [DigitChar(n)] else NatToDecimal(n / 10) + [DigitChar(n % 10)]
  }

  /** The number a string of decimal digits denotes. */
  function DecimalValue(s: string): nat
    requires forall i :: 0 <= i < |s| ==> IsDigit(s[i])
  {
    if s == [] then 0
    else
      assert IsDigit(s[|s| - 1]);
      DecimalValue(s[..|s| - 1]) * 10 + (s[|s| - 1] as int - '0' as int)
  }

  /** Reading back the decimal text of a number gives the number. */
  lemma {:induction false} DecimalRoundTrip(n: nat)
    ensures DecimalValue(NatToDecimal(n)) == n
  {
    var s := NatToDecimal(n);
    if n >= 10 {
      DecimalRoundTrip(n / 10);
      assert s[..|s| - 1] == NatToDecimal(n / 10);
    }
  }
}

/** String helpers standing for the Rust standard-library calls the core uses:
    `str::to_lowercase`, `format!` with positional `{}` holes, `u32::from_str`
    and `str::starts_with` on a set of characters. */
module Text {
  import opened Wrappers
  import opened Primitives

  // ---------------------------------------------------------------- lowercase

  predicate IsUpperAscii(c: char) { 'A' <= c <= 'Z' }

  function LowerChar(c: char): (r: char)
    ensures !IsUpperAscii(r)
    ensures !IsUpperAscii(c) ==> r == c
  {
    if IsUpperAscii(c) then (c as int + 32) as char else c
  }

  /** `str::to_lowercase`, restricted to the ASCII letters. */
  function ToLowercase(s: string): (r: string)
    ensures |r| == |s|
    ensures forall i :: 0 <= i < |s| ==> r[i] == LowerChar(s[i])
  {
    seq(|s|, i requires 0 <= i < |s| => LowerChar(s[i]))
  }

  predicate IsLowercase(s: string) { forall i :: 0 <= i < |s| ==> !IsUpperAscii(s[i]) }

  lemma ToLowercaseIsLowercase(s: string)
    ensures IsLowercase(ToLowercase(s))
    ensures ToLowercase(ToLowercase(s)) == ToLowercase(s)
  {
  }

  lemma ToLowercaseKeepsLowercase(s: string)
    requires IsLowercase(s)
    ensures ToLowercase(s) == s
  {
  }

  // ------------------------------------------------------------------ format!

  /** `format!(template, args..)`: every `{}` hole of the template, left to right, is
      replaced by the next argument. A template with more holes than arguments is
      refused by the Rust compiler; the model leaves such a hole empty. */
  function Format(template: string, args: seq<string>): (r: string)
    decreases |template|
  {
    if |template| == 0 then []
    else if |template| >= 2 && template[0] == '{' && template[1] == '}' then
      if |args| > 0 then args[0] + Format(template[2..], args[1..])
      else Format(template[2..], args)
    else [template[0]] + Format(template[1..], args)
  }

  /** Text without a `{` is copied verbatim. */
  lemma {:induction false} FormatLiteral(text: string, rest: string, args: seq<string>)
    requires NoBrace(text)
    ensures Format(text + rest, args) == text + Format(rest, args)
    decreases |text|
  {
    if |text| > 0 {
      var t := text + rest;
      assert t[0] == text[0] != '{';
      assert Format(t, args) == [t[0]] + Format(t[1..], args);
      assert t[1..] == text[1..] + rest;
      FormatLiteral(text[1..], rest, args);
      assert text == [text[0]] + text[1..];
    } else {
      assert text + rest == rest;
    }
  }

  /** A hole takes the next argument. */
  lemma FormatHole(rest: string, a: string, args: seq<string>)
    ensures Format("{}" + rest, [a] + args) == a + Format(rest, args)
  {
    assert ("{}" + rest)[2..] == rest;
    assert ([a] + args)[1..] == args;
  }

  /** Splits a template into the literal text before its first hole and the rest. */
  lemma FormatPiece(text: string, rest: string, a: string, args: seq<string>)
    requires NoBrace(text)
    ensures Format(text + ("{}" + rest), [a] + args) == text + (a + Format(rest, args))
  {
    FormatLiteral(text, "{}" + rest, [a] + args);
    FormatHole(rest, a, args);
  }

  lemma FormatEnd(text: string, args: seq<string>)
    requires NoBrace(text)
    ensures Format(text, args) == text
  {
    FormatLiteral(text, [], args);
    assert text + [] == text;
  }

  predicate NoBrace(t: string) { forall i :: 0 <= i < |t| ==> t[i] != '{' }

  /** `format!` with one hole. */
  lemma Format1(t0: string, t1: string, a: string)
    requires NoBrace(t0) && NoBrace(t1)
    ensures Format(t0 + ("{}" + t1), [a]) == t0 + (a + t1)
  {
    assert [a] == [a] + [];
    FormatPiece(t0, t1, a, []);
    FormatEnd(t1, []);
  }

  /** `format!` with two holes. */
  lemma Format2(t0: string, t1: string, t2: string, a: string, b: string)
    requires NoBrace(t0) && NoBrace(t1) && NoBrace(t2)
    ensures Format(t0 + ("{}" + (t1 + ("{}" + t2))), [a, b]) == t0 + (a + (t1 + (b + t2)))
  {
    assert [a, b] == [a] + [b];
    FormatPiece(t0, t1 + ("{}" + t2), a, [b]);
    Format1(t1, t2, b);
  }

  /** `format!` with three holes. */
  lemma Format3(t0: string, t1: string, t2: string, t3: string, a: string, b: string, c: string)
    requires NoBrace(t0) && NoBrace(t1) && NoBrace(t2) && NoBrace(t3)
    ensures Format(t0 + ("{}" + (t1 + ("{}" + (t2 + ("{}" + t3))))), [a, b, c])
         == t0 + (a + (t1 + (b + (t2 + (c + t3)))))
  {
    assert [a, b, c] == [a] + [b, c];
    FormatPiece(t0, t1 + ("{}" + (t2 + ("{}" + t3))), a, [b, c]);
    Format2(t1, t2, t3, b, c);
  }

  /** `format!` whose template ends with its only hole. */
  lemma Format1Tail(t0: string, a: string)
    requires NoBrace(t0)
    ensures Format(t0 + "{}", [a]) == t0 + a
  {
    assert "{}" + "" == "{}";
    assert a + "" == a;
    Format1(t0, "", a);
  }

  /** `format!` with two holes, the second ending the template. */
  lemma Format2Tail(t0: string, t1: string, a: string, b: string)
    requires NoBrace(t0) && NoBrace(t1)
    ensures Format(t0 + ("{}" + (t1 + "{}")), [a, b]) == t0 + (a + (t1 + b))
  {
    assert "{}" + "" == "{}";
    assert b + "" == b;
    Format2(t0, t1, "", a, b);
  }

  // ---------------------------------------------------------- joins and splits

  lemma CancelPrefix(p: string, x: string, y: string)
    requires p + x == p + y
    ensures x == y
  {
    assert x == (p + x)[|p|..];
    assert y == (p + y)[|p|..];
  }

  lemma CancelSuffix(x: string, y: string, q: string)
    requires x + q == y + q
    ensures x == y
  {
    assert x == (x + q)[..|x|];
    assert y == (y + q)[..|y|];
  }

  /** Two joins `a + [sep] + b` that agree, where the left parts hold no `sep`, agree part by part. */
  lemma {:induction false} JoinInjective(a1: string, b1: string, a2: string, b2: string, sep: char)
    requires sep !in a1 && sep !in a2
    requires a1 + ([sep] + b1) == a2 + ([sep] + b2)
    ensures a1 == a2 && b1 == b2
    decreases |a1|
  {
    var s := a1 + ([sep] + b1);
    if |a1| == 0 || |a2| == 0 {
      assert s[0] == (a2 + ([sep] + b2))[0];
      assert a1 == a2;
      assert b1 == s[|a1| + 1..] == b2;
    } else {
      assert a1[0] == s[0] == a2[0];
      assert s[1..] == a1[1..] + ([sep] + b1);
      assert (a2 + ([sep] + b2))[1..] == a2[1..] + ([sep] + b2);
      JoinInjective(a1[1..], b1, a2[1..], b2, sep);
      assert a1 == [a1[0]] + a1[1..];
      assert a2 == [a2[0]] + a2[1..];
    }
  }

  /** The mirror of JoinInjective: the right parts hold no `sep`. */
  lemma {:induction false} JoinInjectiveRight(a1: string, b1: string, a2: string, b2: string, sep: char)
    requires sep !in b1 && sep !in b2
    requires a1 + ([sep] + b1) == a2 + ([sep] + b2)
    ensures a1 == a2 && b1 == b2
    decreases |b1|
  {
    var s := a1 + ([sep] + b1);
    if |b1| == 0 || |b2| == 0 {
      assert s[|s| - 1] == (a2 + ([sep] + b2))[|s| - 1];
      assert b1 == b2;
      assert a1 == s[..|s| - 1 - |b1|];
      assert a2 == (a2 + ([sep] + b2))[..|s| - 1 - |b2|];
    } else {
      var n1, n2 := |b1| - 1, |b2| - 1;
      assert b1[n1] == s[|s| - 1] == b2[n2];
      assert s[..|s| - 1] == a1 + ([sep] + b1[..n1]);
      assert (a2 + ([sep] + b2))[..|s| - 1] == a2 + ([sep] + b2[..n2]);
      JoinInjectiveRight(a1, b1[..n1], a2, b2[..n2], sep);
      assert b1 == b1[..n1] + [b1[n1]];
      assert b2 == b2[..n2] + [b2[n2]];
    }
  }

  /** `s.starts_with(&[..])` with a character-set pattern. */
  predicate StartsWithAny(s: string, cs: set<char>) { |s| > 0 && s[0] in cs }

  // ------------------------------------------------------------ u32::from_str

  predicate IsDigit(c: char) { '0' <= c <= '9' }

  predicate AllDigits(s: string) { forall i :: 0 <= i < |s| ==> IsDigit(s[i]) }

  /** The number a run of decimal digits denotes, read left to right as the parser does. */
  function DigitsValue(s: string): (r: nat)
    requires AllDigits(s)
    decreases |s|
  {
    if |s| == 0 then 0
    else DigitsValue(s[..|s| - 1]) * 10 + (s[|s| - 1] as int - '0' as int)
  }

  /** `str::parse::<u32>()`: an optional leading `+`, then one or more ASCII digits whose
      value fits in 32 bits. The empty string, a lone `+`, a `-` sign, any other
      character and an overflowing value are all errors. */
  function ParseU32(s: string): (r: Option<u32>)
    ensures r.Some? ==> |s| > 0 && s[0] != '-'
    ensures r.Some? ==> var ds := if s[0] == '+' then s[1..] else s;
                        |ds| > 0 && AllDigits(ds) && r.value as int == DigitsValue(ds)
    ensures (var ds := if |s| > 0 && s[0] == '+' then s[1..] else s;
             |ds| > 0 && AllDigits(ds) && DigitsValue(ds) < 0x1_0000_0000) ==> r.Some?
  {
    var ds := if |s| > 0 && s[0] == '+' then s[1..] else s;
    if |ds| == 0 || !AllDigits(ds) then None
    else if DigitsValue(ds) < 0x1_0000_0000 then Some(DigitsValue(ds) as u32)
    else None
  }

  function DigitChar(d: nat): (c: char)
    requires d < 10
    ensures IsDigit(c) && c as int - '0' as int == d
  {
    ('0' as int + d) as char
  }

  /** The shortest decimal spelling of `n`, as `u32`'s `Display` prints it. */
  function DecimalString(n: nat): (r: string)
    ensures |r| > 0 && AllDigits(r)
  {
    if n < 10 then [DigitChar(n)] else DecimalString(n / 10) + [DigitChar(n % 10)]
  }

  lemma {:induction false} DecimalStringValue(n: nat)
    ensures DigitsValue(DecimalString(n)) == n
  {
    var s := DecimalString(n);
    if n >= 10 {
      DecimalStringValue(n / 10);
      assert s[..|s| - 1] == DecimalString(n / 10);
    }
  }

  /** Printing a `u32` and parsing it back gives the same number, with or without a `+`. */
  lemma ParseU32RoundTrip(n: u32)
    ensures ParseU32(DecimalString(n as nat)) == Some(n)
    ensures ParseU32("+" + DecimalString(n as nat)) == Some(n)
  {
    DecimalStringValue(n as nat);
    var s := DecimalString(n as nat);
    assert s[0] != '+';
    assert ("+" + s)[1..] == s;
  }

  /** A leading zero does not change the value of a digit run. */
  lemma {:induction false} DigitsValueLeadingZero(s: string)
    requires AllDigits(s)
    ensures AllDigits("0" + s) && DigitsValue("0" + s) == DigitsValue(s)
    decreases |s|
  {
    var z := "0" + s;
    assert AllDigits(z) by {
      forall i | 0 <= i < |z| ensures IsDigit(z[i]) {
        if i > 0 { assert z[i] == s[i - 1]; }
      }
    }
    if |s| > 0 {
      var p := s[..|s| - 1];
      assert AllDigits(p) by {
        forall i | 0 <= i < |p| ensures IsDigit(p[i]) { assert p[i] == s[i]; }
      }
      DigitsValueLeadingZero(p);
      assert z[..|z| - 1] == "0" + p;
      assert z[|z| - 1] == s[|s| - 1];
    }
  }

  /** Leading zeros are accepted and ignored: `"007".parse::<u32>()` is 7. */
  lemma ParseU32LeadingZero(s: string)
    requires |s| > 0 && AllDigits(s)
    ensures ParseU32("0" + s) == ParseU32(s)
  {
    DigitsValueLeadingZero(s);
    assert s[0] != '+';
    assert ("0" + s)[0] != '+';
  }

  /** The first number past the range of `u32` does not parse. */
  lemma ParseU32Overflow()
    ensures ParseU32(DecimalString(0x1_0000_0000)) == None
  {
    DecimalStringValue(0x1_0000_0000);
    assert DecimalString(0x1_0000_0000)[0] != '+';
  }
}

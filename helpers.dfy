/** The string helpers of the web client: `removeAccents`, which the food
    lookup uses to compare names, `capitalizeFirstLetter` and
    `generatePlaceholderImage`. The last two are word for word the same in
    the two copies of helpers.js. */
module Helpers {
  import opened Seqs
  import opened Text

  /** The combining diacritical marks U+0300..U+036F that the regular
      expression in `removeAccents` deletes. */
  predicate IsCombiningMark(c: char) { '\U{0300}' <= c <= '\U{036F}' }

  predicate IsKept(c: char) { !IsCombiningMark(c) }

  function StripMarks(s: string): (r: string)
    ensures forall c :: c in r ==> !IsCombiningMark(c)
  {
    Filter(s, IsKept)
  }

  /** The two replacements `đ` -> `d` and `Đ` -> `D`. */
  function DStrokeChar(c: char): char {
    if c == 'đ' then 'd' else if c == 'Đ' then 'D' else c
  }

  function ReplaceDStroke(s: string): (r: string)
    ensures |r| == |s|
    ensures forall i :: 0 <= i < |s| ==> r[i] == DStrokeChar(s[i])
  {
    seq(|s|, i requires 0 <= i < |s| => DStrokeChar(s[i]))
  }

  /** Everything `removeAccents` does before `trim()`. */
  function Fold(s: string): string {
    Lower(ReplaceDStroke(StripMarks(s)))
  }

  /** `removeAccents(str)`: the empty (falsy) string gives ""; otherwise marks
      are deleted, `đ`/`Đ` become `d`/`D`, the text is lower-cased and trimmed. */
  function RemoveAccents(s: string): string {
    if s == "" then "" else Trim(Fold(s), JsIsSpace)
  }

  /** What a folded character looks like: one character in, one out. */
  function FoldChar(c: char): char { LowerChar(DStrokeChar(c)) }

  lemma FoldPointwise(s: string)
    ensures |Fold(s)| == |StripMarks(s)|
    ensures forall i :: 0 <= i < |Fold(s)| ==> Fold(s)[i] == FoldChar(StripMarks(s)[i])
  {
  }

  lemma FoldAppend(a: string, b: string)
    ensures Fold(a + b) == Fold(a) + Fold(b)
  {
    FilterAppend(a, b, IsKept);
    FoldPointwise(a);
    FoldPointwise(b);
    FoldPointwise(a + b);
  }

  /** The result of `removeAccents` has no combining mark, no `đ`/`Đ`, no
      ASCII capital and no leading or trailing whitespace. */
  lemma RemoveAccentsNormalForm(s: string)
    ensures var r := RemoveAccents(s);
      (forall c :: c in r ==> !IsCombiningMark(c) && c != 'đ' && c != 'Đ' && !IsAsciiUpper(c))
      && (r != [] ==> !JsIsSpace(r[0]) && !JsIsSpace(r[|r| - 1]))
  {
    if s != "" {
      var f := Fold(s);
      FoldPointwise(s);
      assert forall c :: c in f ==> !IsCombiningMark(c) && c != 'đ' && c != 'Đ' && !IsAsciiUpper(c) by {
        forall c | c in f
          ensures !IsCombiningMark(c) && c != 'đ' && c != 'Đ' && !IsAsciiUpper(c)
        {
          var i :| 0 <= i < |f| && f[i] == c;
          assert StripMarks(s)[i] in StripMarks(s);
        }
      }
      TrimChars(f, JsIsSpace);
      TrimIsCore(f, JsIsSpace);
    }
  }

  /** `removeAccents` depends on its argument only through `Fold`. */
  lemma RemoveAccentsByFold(x: string, y: string)
    requires Fold(x) == Fold(y)
    ensures RemoveAccents(x) == RemoveAccents(y)
  {
    if x == "" || y == "" {
      assert Fold("") == "" by {
        FoldPointwise("");
      }
      assert Trim("", JsIsSpace) == "";
    }
  }

  lemma FoldSplice(a: string, x: string, b: string)
    ensures Fold(a + x + b) == Fold(a) + Fold(x) + Fold(b)
  {
    FoldAppend(a + x, b);
    FoldAppend(a, x);
  }

  lemma FoldOne(c: char)
    ensures Fold([c]) == if IsCombiningMark(c) then [] else [FoldChar(c)]
  {
    assert [c][1..] == [];
    FoldPointwise([c]);
  }

  lemma FoldDs()
    ensures Fold("đ") == "d" && Fold("Đ") == "d" && Fold("d") == "d"
  {
    FoldOne('đ');
    FoldOne('Đ');
    FoldOne('d');
  }

  /** `đ` and `Đ` anywhere in a name compare like a plain `d`. */
  lemma RemoveAccentsDStroke(a: string, b: string)
    ensures RemoveAccents(a + "đ" + b) == RemoveAccents(a + "d" + b)
    ensures RemoveAccents(a + "Đ" + b) == RemoveAccents(a + "d" + b)
  {
    FoldDs();
    assert Fold(a + "đ" + b) == Fold(a + "d" + b) by {
      FoldSplice(a, "đ", b);
      FoldSplice(a, "d", b);
    }
    assert Fold(a + "Đ" + b) == Fold(a + "d" + b) by {
      FoldSplice(a, "Đ", b);
      FoldSplice(a, "d", b);
    }
    RemoveAccentsByFold(a + "đ" + b, a + "d" + b);
    RemoveAccentsByFold(a + "Đ" + b, a + "d" + b);
  }

  /** A combining mark anywhere in a name is ignored. */
  lemma RemoveAccentsDropsMark(a: string, m: char, b: string)
    requires IsCombiningMark(m)
    ensures RemoveAccents(a + [m] + b) == RemoveAccents(a + b)
  {
    assert Fold(a + [m] + b) == Fold(a + b) by {
      FoldSplice(a, [m], b);
      FoldAppend(a, b);
      FoldOne(m);
      assert Fold([m]) == "";
    }
    RemoveAccentsByFold(a + [m] + b, a + b);
  }

  lemma {:induction false} StripMarksLower(s: string)
    ensures StripMarks(Lower(s)) == Lower(StripMarks(s))
  {
    if s != [] {
      var c, t := s[0], s[1..];
      StripMarksLower(t);
      assert s == [c] + t;
      assert Lower(s) == [LowerChar(c)] + Lower(t) by {
        LowerAppend([c], t);
      }
      calc {
        StripMarks(Lower(s));
      == { FilterAppend([LowerChar(c)], Lower(t), IsKept); }
        Filter([LowerChar(c)], IsKept) + StripMarks(Lower(t));
      == { assert Filter([LowerChar(c)], IsKept) == Lower(Filter([c], IsKept)); }
        Lower(Filter([c], IsKept)) + Lower(StripMarks(t));
      == { LowerAppend(Filter([c], IsKept), StripMarks(t)); }
        Lower(Filter([c], IsKept) + StripMarks(t));
      == { FilterAppend([c], t, IsKept); }
        Lower(StripMarks(s));
      }
    }
  }

  /** Upper- and lower-case spellings of a name fold to the same text. */
  lemma RemoveAccentsIgnoresCase(s: string)
    ensures RemoveAccents(Lower(s)) == RemoveAccents(s)
  {
    StripMarksLower(s);
    assert Fold(Lower(s)) == Fold(s) by {
      var m := StripMarks(s);
      assert StripMarks(Lower(s)) == Lower(m);
      assert forall i :: 0 <= i < |m| ==> FoldChar(LowerChar(m[i])) == FoldChar(m[i]);
      FoldPointwise(s);
      FoldPointwise(Lower(s));
    }
  }

  /** `capitalizeFirstLetter(s)`: the first character upper-cased, the rest as it is. */
  function CapitalizeFirstLetter(s: string): (r: string)
    ensures |r| == |s|
    ensures s != "" ==> r[0] == UpperChar(s[0]) && r[1..] == s[1..]
  {
    if s == "" then "" else [UpperChar(s[0])] + s[1..]
  }

  /** Capitalising changes no letter other than the first one's case, and
      doing it twice is the same as doing it once. */
  lemma CapitalizeOnlyChangesCase(s: string)
    ensures Lower(CapitalizeFirstLetter(s)) == Lower(s)
    ensures CapitalizeFirstLetter(CapitalizeFirstLetter(s)) == CapitalizeFirstLetter(s)
    ensures s != "" && IsAsciiLower(s[0]) ==> IsAsciiUpper(CapitalizeFirstLetter(s)[0])
    ensures s != "" && !IsAsciiLower(s[0]) ==> CapitalizeFirstLetter(s) == s
  {
    if s != "" {
      assert LowerChar(UpperChar(s[0])) == LowerChar(s[0]);
      assert CapitalizeFirstLetter(s)[1..] == s[1..];
    }
  }

  /** A JavaScript safe integer: every integer of magnitude at most
      2^53 - 1 is a double, and the template prints it in plain decimal. */
  type SafeInteger = n: int | -0x1F_FFFF_FFFF_FFFF <= n <= 0x1F_FFFF_FFFF_FFFF

  /** A width or height argument: left out (so the default applies), a
      safe integer, or a string that the template inserts verbatim. */
  datatype Dim = Omitted | Number(n: SafeInteger) | Verbatim(s: string)

  function DimText(d: Dim, default: int): string {
    match d
    case Omitted => IntToString(default)
    case Number(n) => IntToString(n)
    case Verbatim(s) => s
  }

  const PlaceholderBase: string := "https://via.placeholder.com/"

  /** `generatePlaceholderImage(width = 300, height = 200)`. */
  function GeneratePlaceholderImage(width: Dim, height: Dim): string {
    PlaceholderBase + DimText(width, 300) + "x" + DimText(height, 200)
  }

  /** The first index of `c` in `s`, if any. */
  function IndexOf(s: string, c: char): (r: Option<nat>)
    ensures r.Some? ==> r.value < |s| && s[r.value] == c && c !in s[..r.value]
    ensures r.None? ==> c !in s
  {
    if s == [] then None
    else if s[0] == c then Some(0)
    else match IndexOf(s[1..], c)
      case None => None
      case Some(k) => (assert s[..k + 1] == [s[0]] + s[1..][..k]; Some(k + 1))
  }

  /** Reads the width and height back out of a placeholder URL. */
  function ParsePlaceholder(url: string): Option<(int, int)> {
    if |url| < |PlaceholderBase| || url[..|PlaceholderBase|] != PlaceholderBase then None
    else
      var rest := url[|PlaceholderBase|..];
      match IndexOf(rest, 'x')
      case None => None
      case Some(k) =>
        match (ParseInt(rest[..k]), ParseInt(rest[k + 1..]))
        case (Some(w), Some(h)) => Some((w, h))
        case _ => None
  }

  lemma IntToStringHasNoX(n: int)
    ensures 'x' !in IntToString(n)
  {
    if n < 0 {
      assert forall c :: c in IntToString(n) ==> c == '-' || c in NatToString(-n);
    }
  }

  lemma {:induction false} IndexOfSeparator(ws: string, hs: string)
    requires 'x' !in ws
    ensures IndexOf(ws + "x" + hs, 'x') == Some(|ws|)
  {
    if ws != [] {
      assert (ws + "x" + hs)[1..] == ws[1..] + "x" + hs;
      IndexOfSeparator(ws[1..], hs);
    }
  }

  lemma ParseSplit(ws: string, hs: string)
    requires 'x' !in ws
    ensures ParsePlaceholder(PlaceholderBase + ws + "x" + hs)
      == match (ParseInt(ws), ParseInt(hs))
         case (Some(w), Some(h)) => Some((w, h))
         case _ => None
  {
    var rest := ws + "x" + hs;
    var url := PlaceholderBase + ws + "x" + hs;
    assert url == PlaceholderBase + rest;
    assert url[..|PlaceholderBase|] == PlaceholderBase;
    assert url[|PlaceholderBase|..] == rest;
    IndexOfSeparator(ws, hs);
    assert rest[..|ws|] == ws;
    assert rest[|ws| + 1..] == hs;
  }

  /** The URL carries the given integer dimensions, or 300 and 200 when left out. */
  lemma PlaceholderRoundTrip(width: Dim, height: Dim)
    requires !width.Verbatim? && !height.Verbatim?
    ensures ParsePlaceholder(GeneratePlaceholderImage(width, height))
      == Some((if width.Number? then width.n else 300, if height.Number? then height.n else 200))
  {
    var w := if width.Number? then width.n else 300;
    var h := if height.Number? then height.n else 200;
    assert DimText(width, 300) == IntToString(w);
    assert DimText(height, 200) == IntToString(h);
    IntToStringHasNoX(w);
    ParseSplit(IntToString(w), IntToString(h));
    IntRoundTrip(w);
    IntRoundTrip(h);
  }
}

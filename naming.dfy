/** Choosing the output files of one layout: the `.pdf` and `.png` names
    built from one stem, the numbered stems `base_1`, `base_2`, ... that the
    rename policy tries, and the configured policy itself. The output folder
    is the set of file names it already holds. */
module Naming {

  predicate IsDigit(c: char) {
    '0' <= c <= '9'
  }

  function DigitChar(d: nat): (c: char)
    requires d < 10
    ensures IsDigit(c) && c as int - '0' as int == d
  {
    "0123456789"[d]
  }

  /** Python's `f"{n}"` for a natural number: its decimal digits, without
      leading zeros. */
  function Decimal(n: nat): (r: string)
    ensures |r| >= 1
    ensures forall i :: 0 <= i < |r| ==> IsDigit(r[i])
    ensures n >= 1 ==> r[0] != '0'
  {
    if n < 10 then [DigitChar(n)] else Decimal(n / 10) + [DigitChar(n % 10)]
  }

  /** The number a string of decimal digits denotes. */
  function DigitsValue(s: string): nat
    requires forall i :: 0 <= i < |s| ==> IsDigit(s[i])
  {
    if s == [] then 0
    else
      var last := s[|s| - 1];
      assert IsDigit(last);
      DigitsValue(s[..|s| - 1]) * 10 + (last as int - '0' as int)
  }

  /** Reading the digits back gives the number that was written. */
  lemma {:induction false} DecimalRoundTrip(n: nat)
    ensures DigitsValue(Decimal(n)) == n
  {
    var r := Decimal(n);
    if n >= 10 {
      DecimalRoundTrip(n / 10);
      assert r[..|r| - 1] == Decimal(n / 10);
    }
  }

  /** Different suffixes give different decimal strings. */
  lemma DecimalInjective(m: nat, n: nat)
    requires Decimal(m) == Decimal(n)
    ensures m == n
  {
    DecimalRoundTrip(m);
    DecimalRoundTrip(n);
  }

  function Pow10(e: nat): (p: nat)
    ensures p >= 1
  {
    if e == 0 then 1 else 10 * Pow10(e - 1)
  }

  /** A number of at least 10^e has more than e digits. */
  lemma {:induction false} DecimalLength(n: nat, e: nat)
    requires n >= Pow10(e)
    ensures |Decimal(n)| > e
  {
    if e > 0 {
      DecimalLength(n / 10, e - 1);
    }
  }

  /** The stem tried at step `k` of the rename loop: the base itself first,
      then `base_k`. The suffix always goes on the original base. */
  function Stem(base: string, k: nat): string {
    if k == 0 then base else base + "_" + Decimal(k)
  }

  /** A file the script can touch in the output folder: `<stem>.pdf` or
      `<stem>.png`. A file of any other form never equals a path the script
      builds, so the folder is modelled as the set of these files it holds. */
  datatype File = Pdf(stem: string) | Png(stem: string)

  /** The file's name in the folder, as `f"{layout_name}.pdf"` and
      `f"{layout_name}.png"` spell it. */
  function FileName(f: File): string {
    match f
    case Pdf(s) => s + ".pdf"
    case Png(s) => s + ".png"
  }

  /** Different files have different names, so a folder of names and a
      folder of files hold the same information. */
  lemma FileNameInjective(f: File, g: File)
    requires FileName(f) == FileName(g)
    ensures f == g
  {
    var n := FileName(f);
    assert |f.stem| == |g.stem| == |n| - 4;
    assert f.stem == n[..|n| - 4] == g.stem;
    assert n[|n| - 1] == (if f.Pdf? then 'f' else 'g') == (if g.Pdf? then 'f' else 'g');
  }

  /** A stem is free when neither of its two files is in the folder. */
  predicate Free(folder: set<File>, stem: string) {
    Pdf(stem) !in folder && Png(stem) !in folder
  }

  /** A numbered stem is the base, one underscore and digits only: suffixes
      never compound into `base_1_2`, and distinct steps give distinct stems. */
  lemma NumberedStem(base: string, k: nat)
    requires k >= 1
    ensures |Stem(base, k)| > |base| + 1
    ensures Stem(base, k)[..|base|] == base && Stem(base, k)[|base|] == '_'
    ensures forall i :: |base| < i < |Stem(base, k)| ==> IsDigit(Stem(base, k)[i])
    ensures forall j: nat :: j != k ==> Stem(base, j) != Stem(base, k)
  {
    var s := Stem(base, k);
    forall i | |base| < i < |s| ensures IsDigit(s[i]) {
      assert s[i] == Decimal(k)[i - |base| - 1];
    }
    forall j: nat | j != k ensures Stem(base, j) != s {
      if j >= 1 && Stem(base, j) == s {
        assert Decimal(j) == s[|base| + 1..] == Decimal(k);
        DecimalInjective(j, k);
      }
    }
  }

  /** An upper bound on the length of the names in a folder. */
  ghost function MaxLen(folder: set<File>): (m: nat)
    ensures forall f :: f in folder ==> |f.stem| <= m
  {
    if folder == {} then 0
    else
      var f :| f in folder;
      var rest := MaxLen(folder - {f});
      if |f.stem| > rest then |f.stem| else rest
  }

  /** Far enough along, a numbered stem is longer than every file in the
      folder, so it is free: this is why the rename loop stops. */
  lemma FarStemIsFree(folder: set<File>, base: string, k: nat)
    requires k >= Pow10(MaxLen(folder))
    ensures Free(folder, Stem(base, k))
  {
    DecimalLength(k, MaxLen(folder));
  }

  /** The first free step at or after `k`. */
  function FirstFreeFrom(folder: set<File>, base: string, k: nat): nat
    decreases Pow10(MaxLen(folder)) - k
  {
    if Free(folder, Stem(base, k)) then k
    else
      assert k < Pow10(MaxLen(folder)) by {
        if k >= Pow10(MaxLen(folder)) {
          FarStemIsFree(folder, base, k);
        }
      }
      FirstFreeFrom(folder, base, k + 1)
  }

  /** The step the rename policy settles on. */
  function FirstFree(folder: set<File>, base: string): nat {
    FirstFreeFrom(folder, base, 0)
  }

  lemma {:induction false} FirstFreeFromIsFree(folder: set<File>, base: string, k: nat)
    ensures k <= FirstFreeFrom(folder, base, k)
    ensures Free(folder, Stem(base, FirstFreeFrom(folder, base, k)))
    decreases Pow10(MaxLen(folder)) - k
  {
    if !Free(folder, Stem(base, k)) {
      assert k < Pow10(MaxLen(folder)) by {
        if k >= Pow10(MaxLen(folder)) {
          FarStemIsFree(folder, base, k);
        }
      }
      FirstFreeFromIsFree(folder, base, k + 1);
    }
  }

  lemma {:induction false} FirstFreeFromIsLeast(folder: set<File>, base: string, k: nat, j: nat)
    requires k <= j < FirstFreeFrom(folder, base, k)
    ensures !Free(folder, Stem(base, j))
    decreases j - k
  {
    if j > k {
      FirstFreeFromIsLeast(folder, base, k + 1, j);
    }
  }

  /** The rename policy settles on the least step whose stem has neither
      file in the folder. */
  lemma FirstFreeIsLeast(folder: set<File>, base: string)
    ensures Free(folder, Stem(base, FirstFree(folder, base)))
    ensures forall j :: 0 <= j < FirstFree(folder, base) ==> !Free(folder, Stem(base, j))
  {
    FirstFreeFromIsFree(folder, base, 0);
    forall j | 0 <= j < FirstFree(folder, base) {
      FirstFreeFromIsLeast(folder, base, 0, j);
    }
  }

  /** The rename loop: try `base`, then `base_1`, `base_2`, ... until neither
      the `.pdf` nor the `.png` of the stem is in the folder. Both paths are
      rebuilt from the same stem at every step. */
  method RenameUntilFree(base: string, folder: set<File>)
    returns (stem: string, pdf: File, png: File)
    ensures stem == Stem(base, FirstFree(folder, base))
    ensures pdf == Pdf(stem) && png == Png(stem)
    ensures pdf !in folder && png !in folder
  {
    stem := base;
    pdf := Pdf(stem);
    png := Png(stem);
    var count := 1;
    while pdf in folder || png in folder
      invariant count >= 1
      invariant stem == Stem(base, count - 1)
      invariant pdf == Pdf(stem) && png == Png(stem)
      invariant FirstFreeFrom(folder, base, count - 1) == FirstFree(folder, base)
      decreases FirstFree(folder, base) - (count - 1)
    {
      FirstFreeFromIsFree(folder, base, count - 1);
      stem := base + "_" + Decimal(count);
      pdf := Pdf(stem);
      png := Png(stem);
      count := count + 1;
    }
  }

  /** With `base.pdf`, `base_1.pdf` and `base_1.png` present, the rename
      policy picks `base_2`, although `base.png` is free: one stem for both
      files, and the first step where both are free. */
  lemma RenameSkipsHalfTakenStems(base: string, folder: set<File>)
    requires folder == {Pdf(base), Pdf(base + "_1"), Png(base + "_1")}
    ensures FirstFree(folder, base) == 2
    ensures Stem(base, FirstFree(folder, base)) == base + "_2"
  {
    assert Decimal(1) == "1" && Decimal(2) == "2";
    assert !Free(folder, Stem(base, 0));
    assert Stem(base, 1) == base + "_1";
    assert !Free(folder, Stem(base, 1));
    var two := Stem(base, 2);
    assert two == base + "_2";
    assert two != base && two[|base| + 1] == '2' && (base + "_1")[|base| + 1] == '1';
    assert Free(folder, two);
    assert FirstFreeFrom(folder, base, 2) == 2;
    assert FirstFreeFrom(folder, base, 1) == 2;
  }

  /** The value of `modo_arquivos` once lowered: rename ("renomear"), replace
      ("substituir"), or anything else. */
  datatype Mode = Rename | Replace | Invalid

  function LowerAscii(c: char): char {
    if 'A' <= c <= 'Z' then (c as int + 32) as char else c
  }

  /** `str.lower()` on the letters that matter for the comparison. */
  function Lower(s: string): (r: string)
    ensures |r| == |s|
    ensures forall i :: 0 <= i < |s| ==> r[i] == LowerAscii(s[i])
  {
    if s == [] then [] else [LowerAscii(s[0])] + Lower(s[1..])
  }

  function ParseMode(setting: string): Mode {
    var m := Lower(setting);
    if m == "renomear" then Rename
    else if m == "substituir" then Replace
    else Invalid
  }

  /** `s` spells the lower-case word `w` in any mix of cases. */
  predicate SpellsIgnoringCase(s: string, w: string) {
    |s| == |w| && forall i :: 0 <= i < |s| ==> LowerAscii(s[i]) == w[i]
  }

  /** The policy is chosen case-insensitively. */
  lemma ParseModeIgnoresCase(setting: string)
    ensures ParseMode(setting) == Rename <==> SpellsIgnoringCase(setting, "renomear")
    ensures ParseMode(setting) == Replace <==> SpellsIgnoringCase(setting, "substituir")
    ensures ParseMode(setting) == Invalid <==>
              !SpellsIgnoringCase(setting, "renomear") && !SpellsIgnoringCase(setting, "substituir")
  {
  }
}

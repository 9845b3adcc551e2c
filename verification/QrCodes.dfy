/**
  The QR Code constructor, and reading a finished symbol back from its modules alone: the size
  gives the version, the format information gives the error correction level and the mask, and the
  zigzag scan of the unmasked modules gives the codewords.
*/
module QrCodes {
  import opened Outcomes
  import opened GaloisField
  import opened Grids
  import opened Tables
  import opened Blocks
  import opened Zigzag
  import opened FunctionPatterns
  import opened FreeModules
  import opened Masking
  import opened Bits

  // ----- What a symbol looks like -----

  /** The function patterns on a white grid. */
  function Canvas(ver: Version, ecl: Ecc): (g: Grid)
    ensures IsSquare(g, Size(ver))
  {
    Paint(Size(ver), (x, y) => At(AllPatterns(ver, ecl), x, y) == Some(true))
  }

  /** The canvas with the codewords drawn, before masking. */
  function Unmasked(ver: Version, ecl: Ecc, data: seq<Byte>): (g: Grid)
    requires |data| == NumDataCodewords(ver, ecl)
    ensures IsSquare(g, Size(ver))
  {
    Draw(Canvas(ver, ecl), FunctionGrid(ver), Size(ver), BitsOf(Interleaved(LayoutOf(ver, ecl), data)))
  }

  /** The symbol with a given mask. */
  function Symbol(ver: Version, ecl: Ecc, data: seq<Byte>, msk: nat): (g: Grid)
    requires |data| == NumDataCodewords(ver, ecl)
    ensures IsSquare(g, Size(ver))
  {
    Finished(Unmasked(ver, ecl, data), FunctionGrid(ver), Size(ver), ecl, msk)
  }

  lemma FormatModulesMarked(ver: Version)
    ensures FormatMarked(FunctionGrid(ver), Size(ver))
  {
    hide InAlignment;
    var f, n := FunctionGrid(ver), Size(ver);
    forall y, x | 0 <= y < n && 0 <= x < n && FormatWrite(n, x, y) >= 0
      ensures f[y][x]
    {
      assert f[y][x] == IsFunctionModule(ver, x, y);
    }
  }

  lemma CanvasDrawn(ver: Version, ecl: Ecc, g: Grid, f: Grid, g': Grid, f': Grid)
    requires Stamped(g, f, g', f', Size(ver), AllPatterns(ver, ecl))
    requires forall y, x :: 0 <= y < Size(ver) && 0 <= x < Size(ver) ==> !g[y][x] && !f[y][x]
    ensures g' == Canvas(ver, ecl) && f' == FunctionGrid(ver)
  {
    FunctionGridDrawn(ver, ecl, g, f, g', f');
    hide AllPatterns, At, FunctionGrid;
    forall y, x | 0 <= y < Size(ver) && 0 <= x < Size(ver)
      ensures g'[y][x] == Canvas(ver, ecl)[y][x]
    {
      assert Canvas(ver, ecl)[y][x] == (At(AllPatterns(ver, ecl), x, y) == Some(true));
    }
    SameGrid(g', Canvas(ver, ecl), Size(ver));
  }

  // ----- The constructor -----

  /** drawCodewords, with its check of the length and its check that all bits were placed. */
  method PlaceCodewords(ver: Version, modules: array2<bool>, isFunction: array2<bool>, data: seq<Byte>) returns (r: Outcome<()>)
    requires AreGrids(Size(ver), modules, isFunction)
    modifies modules
    ensures r == Failure(InvalidArgument) <==> |data| != NumRawDataModules(ver) / 8
    ensures r == Failure(LogicError) <==>
            |data| == NumRawDataModules(ver) / 8 && Rank(Value(isFunction), Size(ver), ScanLength(Size(ver))) < 8 * |data|
    ensures r.Failure? ==> r.error == InvalidArgument || r.error == LogicError
    ensures Value(modules) ==
            if r == Failure(InvalidArgument) then old(Value(modules))
            else Draw(old(Value(modules)), Value(isFunction), Size(ver), BitsOf(data))
  {
    hide Draw, Rank, Value, BitsOf, NumRawDataModules;
    if |data| != NumRawDataModules(ver) / 8 {
      return Failure(InvalidArgument);
    }
    var all := DrawCodewords(Size(ver), modules, isFunction, data);
    return if all then Success(()) else Failure(LogicError);
  }

  class QrCode {
    const version: Version
    const size: int
    const errorCorrectionLevel: Ecc
    const modules: array2<bool>
    var mask: int

    /**
      Draws the function patterns and the codewords, then masks; msk == -1 asks for the mask with
      the lowest penalty.  None of the internal checks of the source can fail.
    */
    constructor (ver: Version, ecl: Ecc, dataCodewords: seq<Byte>, msk: int)
      requires -1 <= msk <= 7 && |dataCodewords| == NumDataCodewords(ver, ecl)
      ensures version == ver && size == Size(ver) && errorCorrectionLevel == ecl
      ensures fresh(modules) && modules.Length0 == modules.Length1 == Size(ver)
      ensures 0 <= mask <= 7 && (msk >= 0 ==> mask == msk)
      ensures Value(modules) == Symbol(ver, ecl, dataCodewords, mask)
      ensures msk == -1 ==> BestOf(Unmasked(ver, ecl, dataCodewords), FunctionGrid(ver), Size(ver), ecl, mask, 8)
    {
      hide Stamped, UpToFormat, BestOf, FormatMarked, Interleaved, Draw, Canvas, FunctionGrid, Formatted, Masked, AllPatterns;
      version, size, errorCorrectionLevel := ver, Size(ver), ecl;
      var n := Size(ver);
      var grid := new bool[n, n]((_, _) => false);
      var isFunction := new bool[n, n]((_, _) => false);
      modules, mask := grid, 0;
      new;
      ghost var g0, f0 := Value(grid), Value(isFunction);
      DrawFunctionPatterns(ver, ecl, grid, isFunction);
      CanvasDrawn(ver, ecl, g0, f0, Value(grid), Value(isFunction));
      var layout := LayoutOf(ver, ecl);
      var allCodewords := AddEccAndInterleave(layout, dataCodewords);
      FreeModuleCount(ver);
      var drawn := PlaceCodewords(ver, grid, isFunction, allCodewords.value);
      assert drawn.Success?;
      FormatModulesMarked(ver);
      ghost var unmasked := Value(grid);
      var chosen := msk;
      if msk == -1 {
        chosen := ChooseMask(n, grid, isFunction, ecl);
        ChosenInRange(unmasked, FunctionGrid(ver), n, ecl, chosen);
      } else {
        UnmaskedUpToFormat(unmasked, n, ecl);
      }
      mask := chosen;
      FinishMask(n, grid, isFunction, ecl, chosen, unmasked);
    }

    /** The constructor of the source, with the arguments it refuses. */
    static method Create(ver: int, ecl: Ecc, dataCodewords: seq<Byte>, msk: int) returns (r: Outcome<QrCode>)
      ensures r == Failure(DomainError) <==> ver < 1 || ver > 40 || msk < -1 || msk > 7
      ensures r == Failure(InvalidArgument) <==> 1 <= ver <= 40 && -1 <= msk <= 7 && |dataCodewords| != NumDataCodewords(ver, ecl)
      ensures r.Failure? ==> r.error == DomainError || r.error == InvalidArgument
      ensures r.Success? ==>
                var qr := r.value;
                && fresh(qr) && qr.version == ver && qr.errorCorrectionLevel == ecl
                && qr.modules.Length0 == qr.modules.Length1 == Size(ver)
                && 0 <= qr.mask <= 7 && (msk >= 0 ==> qr.mask == msk)
                && |dataCodewords| == NumDataCodewords(ver, ecl)
                && Value(qr.modules) == Symbol(ver, ecl, dataCodewords, qr.mask)
                && (msk == -1 ==> BestOf(Unmasked(ver, ecl, dataCodewords), FunctionGrid(ver), Size(ver), ecl, qr.mask, 8))
    {
      hide NumDataCodewords, Symbol, Value, BestOf, Unmasked, FunctionGrid;
      if ver < 1 || ver > 40 || msk < -1 || msk > 7 {
        return Failure(DomainError);
      }
      if |dataCodewords| != NumDataCodewords(ver, ecl) {
        return Failure(InvalidArgument);
      }
      var qr := new QrCode(ver, ecl, dataCodewords, msk);
      return Success(qr);
    }
  }

  lemma ChosenInRange(g: Grid, fn: Grid, n: nat, ecl: Ecc, msk: int)
    requires BestOf(g, fn, n, ecl, msk, 8)
    ensures 0 <= msk <= 7
  {
  }

  lemma UnmaskedUpToFormat(g: Grid, n: nat, ecl: Ecc)
    requires IsSquare(g, n)
    ensures UpToFormat(g, g, n, ecl)
  {
  }

  /** The end of the constructor: apply the chosen mask and overwrite the format information. */
  method FinishMask(n: int, modules: array2<bool>, isFunction: array2<bool>, ecl: Ecc, msk: int, ghost g: Grid)
    requires AreGrids(n, modules, isFunction) && 0 <= msk <= 7
    requires UpToFormat(Value(modules), g, n, ecl) && FormatMarked(Value(isFunction), n)
    modifies modules, isFunction
    ensures IsSquare(g, n) && Value(modules) == Finished(g, old(Value(isFunction)), n, ecl, msk)
  {
    ghost var fn := Value(isFunction);
    assert IsSquare(g, n);
    hide Stamped, UpToFormat, FormatMarked, Masked, Formatted;
    TrialGrid(Value(modules), g, fn, n, ecl, msk);
    var ok := ApplyMask(n, modules, isFunction, msk);
    ghost var m := Value(modules);
    DrawFormatBits(n, modules, isFunction, ecl, msk);
    StampedFormat(m, fn, Value(modules), Value(isFunction), n, ecl, msk);
  }

  // ----- Reading a symbol -----

  /** Where the first copy of the format information shows bit i of the word, counted from the most significant. */
  function FormatX(i: nat): nat {
    if i <= 5 then i else if i == 6 then 7 else 8
  }

  function FormatY(i: nat): nat {
    if i <= 7 then 8 else if i == 8 then 7 else if i <= 14 then 14 - i else 0
  }

  /** The format word, from the copy beside the top left finder pattern. */
  function ReadFormatWord(g: Grid): (word: seq<bool>)
    requires |g| >= 21 && IsSquare(g, |g|)
    ensures |word| == 15
  {
    seq(15, i requires 0 <= i < 15 => g[FormatY(i)][FormatX(i)])
  }

  /** Level and mask from a format word: its first five bits, with the fixed pattern removed. */
  function DecodeFormat(word: seq<bool>): (format: (Ecc, nat))
    requires |word| == 15
    ensures format.1 <= 7
  {
    var bits := Xor(word[..5], FORMAT_XOR[..5]);
    var ecl := if bits[0] then (if bits[1] then Quartile else High) else (if bits[1] then Low else Medium);
    (ecl, (if bits[2] then 4 else 0) + (if bits[3] then 2 else 0) + (if bits[4] then 1 else 0))
  }

  lemma {:induction false} FormatDataBits(ecl: Ecc, msk: nat)
    requires msk <= 7
    ensures FormatData(ecl, msk) ==
            [ecl.Quartile? || ecl.High?, ecl.Low? || ecl.Quartile?, msk >= 4, msk / 2 % 2 == 1, msk % 2 == 1]
  {
    hide BinaryBits;
    TwoBits(FormatBits(ecl));
    ThreeBits(msk);
  }

  lemma {:induction false} TwoBits(v: nat)
    ensures BinaryBits(v, 2) == [v / 2 % 2 == 1, v % 2 == 1]
  {
    assert BinaryBits(v / 2, 1) == BinaryBits(v / 2 / 2, 0) + [v / 2 % 2 == 1];
  }

  lemma {:induction false} ThreeBits(v: nat)
    ensures BinaryBits(v, 3) == [v / 4 % 2 == 1, v / 2 % 2 == 1, v % 2 == 1]
  {
    TwoBits(v / 2);
    assert v / 2 / 2 == v / 4;
  }

  /** The format information identifies level and mask. */
  lemma {:induction false} DecodeFormatWord(ecl: Ecc, msk: nat)
    requires msk <= 7
    ensures DecodeFormat(FormatWord(ecl, msk)) == (ecl, msk)
  {
    FormatDataBits(ecl, msk);
    hide Shifted, FormatData;
    var data, word := FormatData(ecl, msk), FormatWord(ecl, msk);
    assert Xor(word[..5], FORMAT_XOR[..5]) == data;
  }

  lemma ReadFormatted(g: Grid, n: nat, ecl: Ecc, msk: nat)
    requires IsSize(n) && IsSquare(g, n)
    ensures ReadFormatWord(Formatted(g, n, ecl, msk)) == FormatWord(ecl, msk)
  {
    hide FormatWord, Formatted;
    var h, w := Formatted(g, n, ecl, msk), FormatWord(ecl, msk);
    forall i | 0 <= i < 15
      ensures h[FormatY(i)][FormatX(i)] == w[i]
    {
      FormattedAt(g, n, ecl, msk, FormatX(i), FormatY(i));
      assert FormatWrite(n, FormatX(i), FormatY(i)) == 14 - i;
    }
  }

  /** Eight bits to a byte. */
  function PackBits(bits: seq<bool>): (bytes: seq<Byte>)
    ensures |bytes| == |bits| / 8
  {
    seq(|bits| / 8, i requires 0 <= i < |bits| / 8 => bits[8 * i..8 * i + 8])
  }

  lemma PackBitsOf(data: seq<Byte>)
    ensures PackBits(BitsOf(data)) == data
  {
    var bits, packed := BitsOf(data), PackBits(BitsOf(data));
    forall i | 0 <= i < |data|
      ensures packed[i] == data[i]
    {
      forall k | 0 <= k < 8 ensures packed[i][k] == data[i][k] {
        assert (8 * i + k) / 8 == i && (8 * i + k) % 8 == k;
        assert packed[i][k] == bits[8 * i + k];
      }
    }
  }

  /** What a reader gets from a symbol. */
  datatype Reading = Reading(version: Version, ecl: Ecc, mask: nat, data: seq<Byte>)

  predicate IsSymbolGrid(g: Grid) {
    |g| % 4 == 1 && 21 <= |g| <= 177 && IsSquare(g, |g|)
  }

  /** Reads a symbol: version from the size, level and mask from the format information, data from the scan. */
  function ReadSymbol(g: Grid): Reading
    requires IsSymbolGrid(g)
  {
    var ver := (|g| - 17) / 4;
    var (ecl, msk) := DecodeFormat(ReadFormatWord(g));
    Reading(ver, ecl, msk, ReadCodewords(g, ver, ecl, msk))
  }

  function ReadCodewords(g: Grid, ver: Version, ecl: Ecc, msk: nat): (data: seq<Byte>)
    requires IsSquare(g, Size(ver))
  {
    var layout := LayoutOf(ver, ecl);
    ReadData(layout, ScannedCodewords(g, ver, ecl, msk), layout.numBlocks)
  }

  /** All codewords, error correction included, as the scan of the unmasked grid finds them. */
  function ScannedCodewords(g: Grid, ver: Version, ecl: Ecc, msk: nat): (code: seq<Byte>)
    requires IsSquare(g, Size(ver))
    ensures |code| == LayoutOf(ver, ecl).RawCodewords()
  {
    var n, fn, layout := Size(ver), FunctionGrid(ver), LayoutOf(ver, ecl);
    FreeModuleCount(ver);
    var bits := ScanBits(Masked(g, fn, n, msk), fn, n, ScanLength(n));
    PackBits(bits[..8 * layout.RawCodewords()])
  }

  /** The scan depends on the free modules only. */
  lemma {:induction false} ScanBitsAgree(g: Grid, h: Grid, fn: Grid, n: int, t: nat)
    requires IsSize(n) && IsSquare(fn, n) && IsSquare(g, n) && IsSquare(h, n) && t <= ScanLength(n)
    requires forall y, x :: 0 <= y < n && 0 <= x < n && !fn[y][x] ==> g[y][x] == h[y][x]
    ensures ScanBits(g, fn, n, t) == ScanBits(h, fn, n, t)
  {
    hide CellX, CellY, Visit, ScanLength;
    if t > 0 {
      ScanBitsAgree(g, h, fn, n, t - 1);
      VisitOfCell(n, t - 1);
    }
  }

  /** Unmasking a finished symbol gives the unmasked codeword modules. */
  lemma UnmaskFinished(g: Grid, fn: Grid, n: nat, ecl: Ecc, msk: nat)
    requires IsSize(n) && IsSquare(g, n) && FormatMarked(fn, n)
    ensures ScanBits(Masked(Finished(g, fn, n, ecl, msk), fn, n, msk), fn, n, ScanLength(n)) == ScanBits(g, fn, n, ScanLength(n))
  {
    hide ScanBits, ScanLength, Masked, Formatted, FormatWord, FormatColor;
    FormatOverMask(g, fn, n, ecl, 0, msk);
    var h := Formatted(g, n, ecl, msk);
    forall y, x | 0 <= y < n && 0 <= x < n && !fn[y][x]
      ensures h[y][x] == g[y][x]
    {
      FormattedAt(g, n, ecl, msk, x, y);
    }
    ScanBitsAgree(h, g, fn, n, ScanLength(n));
  }

  lemma ScannedCodewordsOf(ver: Version, ecl: Ecc, data: seq<Byte>, msk: nat)
    requires |data| == NumDataCodewords(ver, ecl)
    ensures ScannedCodewords(Symbol(ver, ecl, data, msk), ver, ecl, msk) == Interleaved(LayoutOf(ver, ecl), data)
  {
    hide ScanBits, ScanLength, Masked, Formatted, Finished, Canvas, Draw, FunctionGrid, Interleaved, BitsOf, PackBits, FormatMarked;
    var n, fn, layout := Size(ver), FunctionGrid(ver), LayoutOf(ver, ecl);
    var code := Interleaved(layout, data);
    FreeModuleCount(ver);
    FormatModulesMarked(ver);
    UnmaskFinished(Unmasked(ver, ecl, data), fn, n, ecl, msk);
    ScanDrawn(Canvas(ver, ecl), fn, n, BitsOf(code));
    PackBitsOf(code);
  }

  lemma ReadCodewordsOf(ver: Version, ecl: Ecc, data: seq<Byte>, msk: nat)
    requires |data| == NumDataCodewords(ver, ecl)
    ensures ReadCodewords(Symbol(ver, ecl, data, msk), ver, ecl, msk) == data
  {
    hide ScannedCodewords, Symbol, Interleaved, ReadData;
    ScannedCodewordsOf(ver, ecl, data, msk);
    Deinterleave(LayoutOf(ver, ecl), data);
  }

  /** Every symbol reads back as the version, level, mask and data codewords it was made from. */
  lemma ReadSymbolOf(ver: Version, ecl: Ecc, data: seq<Byte>, msk: nat)
    requires |data| == NumDataCodewords(ver, ecl) && msk <= 7
    ensures IsSymbolGrid(Symbol(ver, ecl, data, msk))
    ensures ReadSymbol(Symbol(ver, ecl, data, msk)) == Reading(ver, ecl, msk, data)
  {
    hide Masked, Formatted, Unmasked, FunctionGrid, FormatWord, DecodeFormat, ReadFormatWord, ReadCodewords;
    var g := Masked(Unmasked(ver, ecl, data), FunctionGrid(ver), Size(ver), msk);
    ReadFormatted(g, Size(ver), ecl, msk);
    DecodeFormatWord(ecl, msk);
    ReadCodewordsOf(ver, ecl, data, msk);
  }

  // ----- Damaged symbols -----

  /** The grid shows the format information of the symbol, and in each block at most half the correction bytes are wrong. */
  ghost predicate ShowsDamaged(g: Grid, r: Reading)
    requires IsSquare(g, Size(r.version)) && |r.data| == NumDataCodewords(r.version, r.ecl)
  {
    && ReadFormatWord(g) == FormatWord(r.ecl, r.mask)
    && Tolerable(LayoutOf(r.version, r.ecl), ScannedCodewords(g, r.version, r.ecl, r.mask), r.data)
  }

  /** A symbol shows itself, so the tolerance is met without damage. */
  lemma SymbolShowsItself(ver: Version, ecl: Ecc, data: seq<Byte>, msk: nat)
    requires |data| == NumDataCodewords(ver, ecl) && msk <= 7
    ensures ShowsDamaged(Symbol(ver, ecl, data, msk), Reading(ver, ecl, msk, data))
  {
    hide Masked, Formatted, Unmasked, FunctionGrid, FormatWord, ReadFormatWord, ScannedCodewords, Interleaved, Tolerable;
    var g := Masked(Unmasked(ver, ecl, data), FunctionGrid(ver), Size(ver), msk);
    ReadFormatted(g, Size(ver), ecl, msk);
    ScannedCodewordsOf(ver, ecl, data, msk);
    CodeIsTolerable(LayoutOf(ver, ecl), data);
  }

  /** Whatever is wrong with a grid within that tolerance, it shows only one level, mask and data. */
  lemma DamagedSymbolReads(g: Grid, a: Reading, b: Reading)
    requires a.version == b.version && IsSquare(g, Size(a.version)) && a.mask <= 7 && b.mask <= 7
    requires |a.data| == NumDataCodewords(a.version, a.ecl) && |b.data| == NumDataCodewords(b.version, b.ecl)
    requires ShowsDamaged(g, a) && ShowsDamaged(g, b)
    ensures a == b
  {
    hide FormatWord, ReadFormatWord, ScannedCodewords, DecodeFormat, Tolerable, NumDataCodewords;
    DecodeFormatWord(a.ecl, a.mask);
    DecodeFormatWord(b.ecl, b.mask);
    DamageIsCorrectable(LayoutOf(a.version, a.ecl), ScannedCodewords(g, a.version, a.ecl, a.mask), a.data, b.data);
  }
}

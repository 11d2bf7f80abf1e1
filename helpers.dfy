/**
 * Small helpers of the engine: hidden-name test, binary-content test,
 * human-readable sizes, the size threshold and the per-file header.
 */
module Helpers {
  import opened Text
  import opened Utf8
  import opened Tree

  const KB: nat := 1024
  const MB: nat := 1024 * KB

  /** isHidden: the name starts with a dot. */
  predicate IsHidden(name: string)
    ensures IsHidden(name) <==> HasPrefix(name, ".")
  {
    |name| > 0 && name[0] == '.'
  }

  /** What isBinary decides: non-empty data holding a zero byte or not valid UTF-8. */
  predicate Binary(data: seq<byte>) {
    |data| > 0 && (0 in data || !Valid(data))
  }

  /** isBinary: the empty check, the zero-byte scan, then UTF-8 validity. */
  method IsBinary(data: seq<byte>) returns (b: bool)
    ensures b == Binary(data)
  {
    if |data| == 0 {
      return false;
    }
    for i := 0 to |data|
      invariant 0 !in data[..i]
    {
      if data[i] == 0 {
        return true;
      }
    }
    assert data[..|data|] == data;
    return !Valid(data);
  }

  /** Encoded text is binary exactly when it holds the character U+0000. */
  lemma TextBinaryIffNul(s: string)
    ensures Binary(EncodeString(s)) <==> '\0' in s
  {
    EncodeStringValid(s);
    EncodeStringZero(s);
  }

  /**
   * `num / den` rounded to the nearest integer, ties to the even neighbour:
   * how `%.2f` rounds the exact value it is given.
   */
  function RoundHalfEven(num: nat, den: nat): (k: nat)
    requires den > 0
    ensures NearestEven(num, den, k)
  {
    var q := num / den;
    var r := num % den;
    assert num == q * den + r && r < den by {
      DivMod(num, den);
    }
    if 2 * r > den || (2 * r == den && q % 2 == 1) then
      assert NearestEven(num, den, q + 1) by {
        RoundUp(num, den, q, r);
      }
      q + 1
    else
      assert NearestEven(num, den, q) by {
        RoundDown(num, den, q, r);
      }
      q
  }

  /** `k * den` is within half of `den` from `num`, and `k` is even on a tie. */
  predicate NearestEven(num: nat, den: nat, k: nat) {
    && 2 * (k * den - num) <= den && 2 * (num - k * den) <= den
    && (2 * (k * den - num) == den || 2 * (num - k * den) == den ==> k % 2 == 0)
  }

  lemma DivMod(num: nat, den: nat)
    requires den > 0
    ensures num == (num / den) * den + num % den && num % den < den
  {
  }

  /** Rounding down to `q` is within half a step, and even on a tie. */
  lemma RoundDown(num: nat, den: nat, q: nat, r: nat)
    requires den > 0 && num == q * den + r && 2 * r <= den
    requires 2 * r == den ==> q % 2 == 0
    ensures NearestEven(num, den, q)
  {
  }

  /** Rounding up to `q + 1` is within half a step, and even on a tie. */
  lemma RoundUp(num: nat, den: nat, q: nat, r: nat)
    requires den > 0 && num == q * den + r && r < den && 2 * r >= den
    requires 2 * r == den ==> q % 2 == 1
    ensures NearestEven(num, den, q + 1)
  {
    assert (q + 1) * den == q * den + den;
  }

  /** `%.2f` of num / den for the exact quotient (den a power of two here). */
  function Fixed2(num: nat, den: nat): (r: string)
    requires den > 0
    ensures |r| >= 4 && r[|r| - 3] == '.'
  {
    var k := RoundHalfEven(100 * num, den);
    Itoa(k / 100) + "." + [DigitChar((k / 10) % 10), DigitChar(k % 10)]
  }

  /** formatSize: bytes below 1 KiB as an integer, otherwise KB or MB to two places. */
  function FormatSize(n: nat): string {
    if n >= MB then Fixed2(n, MB) + " MB"
    else if n >= KB then Fixed2(n, KB) + " KB"
    else Itoa(n) + " B"
  }

  /** The three branches and their thresholds. */
  lemma FormatSizeBranches(n: nat)
    ensures n < 1024 ==> FormatSize(n) == Itoa(n) + " B"
    ensures 1024 <= n < 1048576 ==> HasSuffix(FormatSize(n), " KB")
    ensures 1048576 <= n ==> HasSuffix(FormatSize(n), " MB")
  {
    if n >= KB {
      var f := if n >= MB then Fixed2(n, MB) else Fixed2(n, KB);
      var u := if n >= MB then " MB" else " KB";
      assert (f + u)[|f + u| - 3..] == u;
    }
  }

  lemma FormatSizeBytesExample()
    ensures FormatSize(1023) == "1023 B"
  {
    assert Itoa(1) == "1";
    assert Itoa(10) == "10";
    assert Itoa(102) == "102";
    assert Itoa(1023) == "1023";
  }

  /** 1536 bytes is exactly 1.5 KiB. */
  lemma FormatSizeKbExample()
    ensures FormatSize(1536) == "1.50 KB"
  {
    assert RoundHalfEven(153600, 1024) == 150;
    assert Fixed2(1536, 1024) == "1.50";
  }

  /** 1152 bytes is 1.125 KiB, a tie rounded down to the even 1.12. */
  lemma FormatSizeTieDownExample()
    ensures FormatSize(1152) == "1.12 KB"
  {
    assert RoundHalfEven(115200, 1024) == 112;
    assert Fixed2(1152, 1024) == "1.12";
  }

  /** 1408 bytes is 1.375 KiB, a tie rounded up to the even 1.38. */
  lemma FormatSizeTieUpExample()
    ensures FormatSize(1408) == "1.38 KB"
  {
    assert RoundHalfEven(140800, 1024) == 138;
    assert Fixed2(1408, 1024) == "1.38";
  }

  lemma FormatSizeMbExample()
    ensures FormatSize(1048576) == "1.00 MB"
  {
    assert RoundHalfEven(104857600, 1048576) == 100;
    assert Fixed2(1048576, 1048576) == "1.00";
  }

  /** exceedsThreshold: the size in MiB is strictly above the threshold. */
  predicate ExceedsThreshold(sizeBytes: nat, thresholdMb: real) {
    (sizeBytes as real) / (MB as real) > thresholdMb
  }

  /** The threshold is strict: a whole-megabyte threshold keeps a file of exactly that size. */
  lemma ThresholdBoundary(size: nat, t: nat)
    ensures ExceedsThreshold(size, t as real) <==> size > t * MB
    ensures !ExceedsThreshold(t * MB, t as real) && ExceedsThreshold(t * MB + 1, t as real)
  {
    var m := MB as real;
    assert (size as real) / m > t as real <==> size as real > (t as real) * m;
    assert ((t * MB) as real) == (t as real) * m;
    assert (((t * MB + 1) as real) / m > t as real) <==> ((t * MB + 1) as real) > (t as real) * m;
  }

  /** A larger file exceeds whatever threshold a smaller one exceeds. */
  lemma ThresholdMonotone(a: nat, b: nat, t: real)
    requires a <= b && ExceedsThreshold(a, t)
    ensures ExceedsThreshold(b, t)
  {
    var m := MB as real;
    assert (a as real) / m <= (b as real) / m;
  }

  /** Go's int is 64 bits wide: every count and file number is below 2^63. */
  const Int64Limit: nat := 0x8000_0000_0000_0000

  const HeaderWidth: nat := 60

  /** `[%0*d/%d]`: the file number zero-padded to the width of the total. */
  function NumInfo(fileNum: nat, totalFiles: nat): string {
    "[" + ZeroPad(fileNum, |Itoa(totalFiles)|) + "/" + Itoa(totalFiles) + "]"
  }

  lemma NumInfoFits(fileNum: nat, totalFiles: nat)
    requires fileNum < Int64Limit && totalFiles < Int64Limit
    ensures |NumInfo(fileNum, totalFiles)| <= 41
  {
    Pow10Values();
    ItoaLength(fileNum, 19);
    ItoaLength(totalFiles, 19);
  }

  lemma Pow10Values()
    ensures Pow10(19) == 10_000_000_000_000_000_000
  {
    assert Pow10(1) == 10;
    assert Pow10(5) == 100000;
    assert Pow10(10) == 10_000_000_000;
    assert Pow10(15) == 1_000_000_000_000_000;
  }

  /**
   * A line of HeaderWidth characters: `info` centred between runs of `=`
   * (the extra `=` goes right). An `info` wider than the line gets no
   * padding; NumInfoFits shows that 64-bit numbers never get there.
   */
  function Centered(info: string): string {
    var rem := if |info| <= HeaderWidth then HeaderWidth - |info| else 0;
    Repeat('=', rem / 2) + info + Repeat('=', rem - rem / 2) + "\n"
  }

  /** Within the line width, `info` gets `rem / 2` signs on the left and the rest on the right. */
  lemma CenteredFits(info: string, rem: nat)
    requires |info| + rem == HeaderWidth
    ensures Centered(info) == Repeat('=', rem / 2) + info + Repeat('=', rem - rem / 2) + "\n"
  {
  }

  /** The delimiter line above each file. */
  function DelimiterLine(fileNum: nat, totalFiles: nat): string {
    Centered(NumInfo(fileNum, totalFiles))
  }

  function FileLine(path: string): string {
    "File: " + path + "\n"
  }

  /** The `Size:` line, present only for a positive size. */
  function SizeLine(size: nat): string {
    if size > 0 then "Size: " + FormatSize(size) + "\n" else ""
  }

  function RuleLine(): string {
    Repeat('-', HeaderWidth) + "\n"
  }

  /** fileHeader's text. */
  function Header(node: TreeNode, fileNum: nat, totalFiles: nat): string {
    DelimiterLine(fileNum, totalFiles) + FileLine(node.path) + SizeLine(node.size) + RuleLine()
  }

  /** fileHeader: builds the header in a buffer, one write at a time. */
  method FileHeader(node: TreeNode, fileNum: nat, totalFiles: nat) returns (header: string)
    requires fileNum < Int64Limit && totalFiles < Int64Limit
    ensures header == Header(node, fileNum, totalFiles)
  {
    var width := |Itoa(totalFiles)|;
    var numInfo := "[" + ZeroPad(fileNum, width) + "/" + Itoa(totalFiles) + "]";
    NumInfoFits(fileNum, totalFiles);
    var rem := HeaderWidth - |numInfo|;
    var left := rem / 2;
    var right := rem - left;
    var buf := Repeat('=', left) + numInfo + Repeat('=', right) + "\n";
    CenteredFits(numInfo, rem);
    assert numInfo == NumInfo(fileNum, totalFiles);
    ghost var delimiter := DelimiterLine(fileNum, totalFiles);
    assert buf == delimiter;
    buf := buf + FileLine(node.path);
    if node.size > 0 {
      buf := buf + ("Size: " + FormatSize(node.size) + "\n");
    } else {
      assert buf == buf + SizeLine(node.size);
    }
    buf := buf + (Repeat('-', HeaderWidth) + "\n");
    assert buf == delimiter + FileLine(node.path) + SizeLine(node.size) + RuleLine();
    header := buf;
  }

  /**
   * The delimiter line is 60 characters and a newline: `left` and `right`
   * runs of `=` around the number info, with `right - left` either 0 or 1.
   */
  lemma DelimiterShape(fileNum: nat, totalFiles: nat) returns (left: nat, right: nat)
    requires fileNum < Int64Limit && totalFiles < Int64Limit
    ensures DelimiterLine(fileNum, totalFiles)
      == Repeat('=', left) + NumInfo(fileNum, totalFiles) + Repeat('=', right) + "\n"
    ensures left + |NumInfo(fileNum, totalFiles)| + right == HeaderWidth
    ensures 0 <= right - left <= 1
    ensures |DelimiterLine(fileNum, totalFiles)| == HeaderWidth + 1
  {
    NumInfoFits(fileNum, totalFiles);
    var info := NumInfo(fileNum, totalFiles);
    var rem := HeaderWidth - |info|;
    left := rem / 2;
    right := rem - left;
    assert DelimiterLine(fileNum, totalFiles) == Centered(info);
  }

  lemma NumInfoExamples()
    ensures NumInfo(1, 6) == "[1/6]"
    ensures NumInfo(1, 12) == "[01/12]"
    ensures NumInfo(1, 150) == "[001/150]"
  {
    ItoaSmallExamples();
    ZeroPadExamples();
  }

  lemma ItoaSmallExamples()
    ensures Itoa(1) == "1" && Itoa(6) == "6" && Itoa(12) == "12" && Itoa(150) == "150"
  {
    assert Itoa(15) == "15";
  }

  lemma ZeroPadExamples()
    ensures ZeroPad(1, 1) == "1" && ZeroPad(1, 2) == "01" && ZeroPad(1, 3) == "001"
  {
    assert Itoa(1) == "1";
    assert Repeat('0', 1) == "0";
    assert Repeat('0', 2) == "00";
  }

  /**
   * The header opens with the delimiter line and `File: <path>`, closes with
   * 60 dashes and a newline, and what lies between is a `Size:` line exactly
   * when the size is positive.
   */
  lemma HeaderShape(node: TreeNode, fileNum: nat, totalFiles: nat)
    ensures var h := Header(node, fileNum, totalFiles);
      var opening := DelimiterLine(fileNum, totalFiles) + FileLine(node.path);
      HasPrefix(h, opening) && HasSuffix(h, Repeat('-', HeaderWidth) + "\n")
      && (HasPrefix(h[|opening|..], "Size: ") <==> node.size > 0)
  {
    var a := DelimiterLine(fileNum, totalFiles) + FileLine(node.path);
    var z := RuleLine();
    var h := Header(node, fileNum, totalFiles);
    assert h == a + SizeLine(node.size) + z;
    assert z != [] && z[0] == '-' by {
      RuleLineStart();
    }
    ThreeParts(a, SizeLine(node.size), z, h);
    SizeLineOpens(node.size, z);
  }

  /** A string built from three parts opens with the first and ends with the last. */
  lemma ThreeParts(a: string, m: string, z: string, h: string)
    requires h == a + m + z
    ensures HasPrefix(h, a) && HasSuffix(h, z) && h[|a|..] == m + z
  {
    assert h[..|a|] == a;
    assert h[|h| - |z|..] == z;
  }

  /** The rule line starts with a dash. */
  lemma RuleLineStart()
    ensures RuleLine() != [] && RuleLine()[0] == '-'
  {
  }

  /** What follows the opening lines starts with `Size: ` exactly when there is a size line. */
  lemma SizeLineOpens(size: nat, z: string)
    requires z != [] && z[0] == '-'
    ensures HasPrefix(SizeLine(size) + z, "Size: ") <==> size > 0
  {
    if size > 0 {
      assert (SizeLine(size) + z)[..6] == "Size: ";
    } else {
      assert (SizeLine(size) + z)[0] == '-';
    }
  }
}

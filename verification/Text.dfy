/** String helpers shared by the goal modules. */
module Text {

  /** The characters that `String.prototype.trim` removes. */
  predicate IsSpace(c: char) {
    var n := c as int;
    || 9 <= n <= 13
    || n == 32 || n == 160 || n == 0x1680
    || 0x2000 <= n <= 0x200a
    || n == 0x2028 || n == 0x2029 || n == 0x202f || n == 0x205f || n == 0x3000 || n == 0xfeff
  }

  function TrimStart(s: string): (t: string)
    ensures |t| <= |s|
    ensures t != [] ==> !IsSpace(t[0])
  {
    if s == [] || !IsSpace(s[0]) then s else TrimStart(s[1..])
  }

  function TrimEnd(s: string): (t: string)
    ensures t <= s
    ensures t != [] ==> !IsSpace(t[|t| - 1])
  {
    if s == [] || !IsSpace(s[|s| - 1]) then s else TrimEnd(s[..|s| - 1])
  }

  function Trim(s: string): string {
    TrimEnd(TrimStart(s))
  }

  /** A text that trimming leaves alone. */
  predicate IsTrimmed(s: string) {
    s != "" ==> !IsSpace(s[0]) && !IsSpace(s[|s| - 1])
  }

  lemma TrimTrims(s: string)
    ensures IsTrimmed(Trim(s))
    ensures IsTrimmed(s) ==> Trim(s) == s
  {
    var t := TrimStart(s);
    assert TrimEnd(t) <= t;
  }

  predicate IsBlank(s: string) {
    Trim(s) == ""
  }

  /** A text is blank when it has nothing but space in it. */
  lemma BlankIff(s: string)
    ensures IsBlank(s) <==> forall k :: 0 <= k < |s| ==> IsSpace(s[k])
  {
    SpacesGo(s);
    var t := TrimStart(s);
    if t != "" {
      SomethingStays(t);
    }
  }

  lemma {:induction false} SpacesGo(s: string)
    ensures TrimStart(s) == "" <==> forall k :: 0 <= k < |s| ==> IsSpace(s[k])
  {
    if s != "" && IsSpace(s[0]) {
      SpacesGo(s[1..]);
      assert forall k :: 0 < k < |s| ==> s[k] == s[1..][k - 1];
    }
  }

  lemma {:induction false} SomethingStays(s: string)
    requires s != "" && !IsSpace(s[0])
    ensures TrimEnd(s) != ""
  {
    if IsSpace(s[|s| - 1]) {
      SomethingStays(s[..|s| - 1]);
    }
  }

  predicate NoDuplicates<T(==)>(s: seq<T>) {
    forall i, j :: 0 <= i < j < |s| ==> s[i] != s[j]
  }

  /** Trimmed, non-empty, first occurrences only. */
  function UniqueStrings(values: seq<string>): (u: seq<string>)
    ensures NoDuplicates(u)
    ensures forall x :: x in u <==> x != "" && exists k :: 0 <= k < |values| && Trim(values[k]) == x
  {
    if values == [] then []
    else
      var init := UniqueStrings(values[..|values| - 1]);
      var last := Trim(values[|values| - 1]);
      if last == "" || last in init then init else init + [last]
  }

  /** The last `n` elements, as `slice(-n)` for a positive `n`. */
  function LastN<T>(s: seq<T>, n: nat): (t: seq<T>)
    ensures |t| == if |s| <= n then |s| else n
    ensures t == s[|s| - |t|..]
  {
    if |s| <= n then s else s[|s| - n..]
  }

  /** At most the first `n` characters, as `slice(0, n)`. */
  function Clip(s: string, n: nat): string {
    if |s| <= n then s else s[..n]
  }

  function Digit(d: nat): (c: char)
    requires d < 10
    ensures c as int == '0' as int + d
  {
    '0' + d as char
  }

  /** Decimal rendering of a number, as a template literal prints it. */
  function Decimal(n: nat): (s: string)
    ensures s != "" && '0' <= s[|s| - 1] <= '9'
  {
    if n < 10 then [Digit(n)] else Decimal(n / 10) + [Digit(n % 10)]
  }

  function Min(a: nat, b: nat): nat { if a <= b then a else b }
}

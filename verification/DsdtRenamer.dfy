/**
 The renaming of `_T_` in a disassembled DSDT: the search for a name T<n>_ that occurs
 nowhere in the file, and the rewriting of each line with it.
 */
module DsdtRenamer {
  const ISSUE := "_T_"

  // ---------------------------------------------------------------------------------
  // Names T<n>_

  predicate IsDigit(c: char) {
    '0' <= c <= '9'
  }

  function Digit(d: nat): (c: char)
    requires d < 10
    ensures IsDigit(c) && c as int - '0' as int == d
  {
    ('0' as int + d) as char
  }

  // The decimal form of n.
  function Decimal(n: nat): (s: string)
    ensures |s| > 0 && forall i :: 0 <= i < |s| ==> IsDigit(s[i])
  {
    if n < 10 then [Digit(n)] else Decimal(n / 10) + [Digit(n % 10)]
  }

  function Value(s: string): int {
    if s == "" then 0 else Value(s[..|s| - 1]) * 10 + (s[|s| - 1] as int - '0' as int)
  }

  lemma {:induction false} ValueOfDecimal(n: nat)
    ensures Value(Decimal(n)) == n
  {
    if n >= 10 {
      ValueOfDecimal(n / 10);
      assert Decimal(n)[..|Decimal(n)| - 1] == Decimal(n / 10);
    } else {
      assert Decimal(n)[..0] == "";
    }
  }

  lemma {:induction false} DecimalLength(n: nat)
    requires n < 0x8000_0000
    ensures |Decimal(n)| <= 10
  {
    DecimalLengthBelow(n, 10);
  }

  function Pow10(k: nat): nat {
    if k == 0 then 1 else 10 * Pow10(k - 1)
  }

  lemma {:induction false} DecimalLengthBelow(n: nat, k: nat)
    requires 0 < k && n < Pow10(k)
    ensures |Decimal(n)| <= k
    decreases k
  {
    if n >= 10 {
      DecimalLengthBelow(n / 10, k - 1);
    }
  }

  function Name(n: nat): (s: string)
    ensures |s| >= 3 && s[0] == 'T' && s[|s| - 1] == '_'
    ensures forall i :: 0 < i < |s| ==> s[i] != 'T'
  {
    "T" + Decimal(n) + "_"
  }

  // The digits of a name that starts a text run up to its first underscore.
  lemma NameEndsAtUnderscore(n: nat, s: string)
    requires Name(n) <= s
    ensures |s| >= |Decimal(n)| + 2 && s[1..1 + |Decimal(n)|] == Decimal(n)
    ensures s[1 + |Decimal(n)|] == '_'
    ensures forall i :: 0 < i <= |Decimal(n)| ==> s[i] != '_'
  {
    var d, name := Decimal(n), Name(n);
    assert forall i :: 0 <= i < |d| ==> s[1 + i] == name[1 + i] == d[i] && IsDigit(d[i]);
    assert s[1 + |d|] == name[1 + |d|];
  }

  // At most one such name starts at a given place.
  lemma NameUnique(j: nat, k: nat, s: string)
    requires Name(j) <= s && Name(k) <= s
    ensures j == k
  {
    hide Name, Decimal, Value;
    NameEndsAtUnderscore(j, s);
    NameEndsAtUnderscore(k, s);
    assert |Decimal(j)| == |Decimal(k)|;
    ValueOfDecimal(j);
    ValueOfDecimal(k);
  }

  // ---------------------------------------------------------------------------------
  // Searching

  predicate OccursAt(haystack: string, needle: string, i: nat) {
    i <= |haystack| && needle <= haystack[i..]
  }

  ghost predicate Occurs(haystack: string, needle: string) {
    exists i :: OccursAt(haystack, needle, i)
  }

  method CmpStr(haystack: string, needle: string) returns (found: bool)
    ensures found <==> Occurs(haystack, needle)
  {
    var i := 0;
    while i <= |haystack|
      invariant 0 <= i <= |haystack| + 1
      invariant forall k: nat :: k < i ==> !OccursAt(haystack, needle, k)
    {
      if needle <= haystack[i..] {
        assert OccursAt(haystack, needle, i);
        return true;
      }
      i := i + 1;
    }
    found := false;
  }

  ghost predicate Fresh(lines: seq<string>, needle: string) {
    forall k :: 0 <= k < |lines| ==> !Occurs(lines[k], needle)
  }

  function CountT(s: string): nat {
    if s == "" then 0 else (if s[0] == 'T' then 1 else 0) + CountT(s[1..])
  }

  function TotalT(lines: seq<string>): nat {
    if lines == [] then 0 else CountT(lines[0]) + TotalT(lines[1..])
  }

  // The number of the name that starts here, if any.
  ghost function NameAt(s: string): set<nat> {
    if exists k: nat :: Name(k) <= s then var k: nat :| Name(k) <= s; {k} else {}
  }

  ghost function NamesIn(s: string): set<nat> {
    if s == "" then {} else NameAt(s) + NamesIn(s[1..])
  }

  ghost function NamesInAll(lines: seq<string>): set<nat> {
    if lines == [] then {} else NamesIn(lines[0]) + NamesInAll(lines[1..])
  }

  lemma {:induction false} NamesBoundedByT(s: string)
    ensures |NamesIn(s)| <= CountT(s)
  {
    if s != "" {
      NamesBoundedByT(s[1..]);
      if NameAt(s) != {} {
        var k: nat :| Name(k) <= s;
        assert s[0] == Name(k)[0];
      }
      UnionSize(NameAt(s), NamesIn(s[1..]));
    }
  }

  lemma UnionSize<T>(a: set<T>, b: set<T>)
    ensures |a + b| <= |a| + |b|
  {
    assert a + b == a + (b - a);
    assert |b - a| <= |b| by { SubsetSize(b - a, b); }
  }

  lemma {:induction false} SubsetSize<T>(a: set<T>, b: set<T>)
    requires a <= b
    ensures |a| <= |b|
    decreases a
  {
    if a != {} {
      var x :| x in a;
      SubsetSize(a - {x}, b - {x});
    }
  }

  lemma {:induction false} AllNamesBounded(lines: seq<string>)
    ensures |NamesInAll(lines)| <= TotalT(lines)
  {
    if lines != [] {
      AllNamesBounded(lines[1..]);
      NamesBoundedByT(lines[0]);
      UnionSize(NamesIn(lines[0]), NamesInAll(lines[1..]));
    }
  }

  lemma {:induction false} OccurrenceIsName(s: string, n: nat, i: nat)
    requires OccursAt(s, Name(n), i)
    ensures n in NamesIn(s)
    decreases |s|
  {
    if i == 0 {
      assert s[0..] == s;
      var k: nat :| Name(k) <= s && NameAt(s) == {k};
      NameUnique(n, k, s);
    } else {
      assert s[i..] == s[1..][i - 1..];
      OccurrenceIsName(s[1..], n, i - 1);
    }
  }

  lemma {:induction false} TakenIsName(lines: seq<string>, n: nat)
    requires !Fresh(lines, Name(n))
    ensures n in NamesInAll(lines)
  {
    var k :| 0 <= k < |lines| && Occurs(lines[k], Name(n));
    if k == 0 {
      var i :| OccursAt(lines[0], Name(n), i);
      OccurrenceIsName(lines[0], n, i);
    } else {
      assert lines[k] == lines[1..][k - 1];
      TakenIsName(lines[1..], n);
    }
  }

  // The pigeonhole: when the first n names are all taken, the file has n letters T.
  lemma TakenNamesNeedT(lines: seq<string>, n: nat)
    requires forall m: nat :: m < n ==> !Fresh(lines, Name(m))
    ensures n <= TotalT(lines)
  {
    var first := FirstNumbers(n);
    forall m | m in first
      ensures m in NamesInAll(lines)
    {
      TakenIsName(lines, m);
    }
    SubsetSize(first, NamesInAll(lines));
    AllNamesBounded(lines);
  }

  ghost function FirstNumbers(n: nat): (r: set<nat>)
    ensures |r| == n
    ensures forall m: nat :: m in r <==> m < n
  {
    if n == 0 then {} else FirstNumbers(n - 1) + {n - 1}
  }

  // FRESH PREFIX. The search ends on every file, with the least n such that no line
  // contains T<n>_, and n is at most the number of letters T in the file.
  method FindFreshPrefix(lines: seq<string>) returns (firstFree: nat)
    ensures Fresh(lines, Name(firstFree))
    ensures forall m: nat :: m < firstFree ==> !Fresh(lines, Name(m))
    ensures firstFree <= TotalT(lines)
  {
    firstFree := 0;
    while true
      invariant forall m: nat :: m < firstFree ==> !Fresh(lines, Name(m))
      invariant firstFree <= TotalT(lines)
      decreases TotalT(lines) - firstFree
    {
      var isFree := true;
      var i := 0;
      while i < |lines|
        invariant 0 <= i <= |lines| && isFree
        invariant forall k :: 0 <= k < i ==> !Occurs(lines[k], Name(firstFree))
      {
        var found := CmpStr(lines[i], Name(firstFree));
        if found {
          isFree := false;
          break;
        }
        i := i + 1;
      }
      if isFree {
        break;
      }
      TakenNamesNeedT(lines, firstFree + 1);
      firstFree := firstFree + 1;
    }
  }

  // ---------------------------------------------------------------------------------
  // Rewriting

  // Replace `what` by `into`, scanning from the left.
  function Replace(s: string, what: string, into: string): string
    requires what != ""
    decreases |s|
  {
    if s == "" then ""
    else if what <= s then into + Replace(s[|what|..], what, into)
    else [s[0]] + Replace(s[1..], what, into)
  }

  function Renamed(line: string, n: nat): string {
    Replace(line, ISSUE, Name(n))
  }

  lemma {:induction false} NoOccurrenceUnchanged(s: string, what: string, into: string)
    requires what != "" && !Occurs(s, what)
    ensures Replace(s, what, into) == s
    decreases |s|
  {
    if s != "" {
      assert s[0..] == s;
      assert !OccursAt(s, what, 0);
      forall i: nat
        ensures !OccursAt(s[1..], what, i)
      {
        if i <= |s[1..]| {
          assert s[1..][i..] == s[i + 1..];
          assert !OccursAt(s, what, i + 1);
        }
      }
      NoOccurrenceUnchanged(s[1..], what, into);
    }
  }

  // The rewritten line is at most four times as long, which is what the buffer relies on.
  lemma {:induction false} RenamedLength(line: string, n: nat)
    requires |Name(n)| <= 12
    ensures |Renamed(line, n)| <= 4 * |line|
    decreases |line|
  {
    if line == "" {
    } else if ISSUE <= line {
      RenamedLength(line[3..], n);
    } else {
      RenamedLength(line[1..], n);
    }
  }

  // The rewriting loop over an allocated buffer, terminators included.
  method RewriteLine(line: string, n: nat) returns (tmp: array<char>, length: nat)
    requires n < 0x8000_0000
    ensures fresh(tmp) && tmp.Length == 5 * |line| + 10
    ensures length == |Renamed(line, n)| && length + 2 <= tmp.Length
    ensures tmp[..length] == Renamed(line, n) && tmp[length] == '\0'
  {
    var prefix := Name(n);
    DecimalLength(n);
    RenamedLength(line, n);
    tmp := new char[5 * |line| + 10];
    ghost var whole := Renamed(line, n);
    ghost var out := "";
    var i, p := 0, 0;
    while i <= |line|
      invariant 0 <= i <= |line| + 1
      invariant p == |out| + (if i > |line| then 1 else 0) && p < tmp.Length
      invariant tmp[..|out|] == out
      invariant i <= |line| ==> out + Renamed(line[i..], n) == whole
      invariant i > |line| ==> out == whole && tmp[|out|] == '\0'
      decreases |line| + 1 - i
    {
      if i < |line| {
        RenamedTurn(out, line, i, n);
        if ISSUE <= line[i..] {
          Store(tmp, p, prefix);
          out := out + prefix;
          p := p + |prefix|;
          i := i + 3;
        } else {
          Store(tmp, p, [line[i]]);
          out := out + [line[i]];
          p := p + 1;
          i := i + 1;
        }
      } else {
        assert line[i..] == "" && out + "" == out;
        Store(tmp, p, "\0");
        p := p + 1;
        i := i + 1;
      }
    }
    tmp[p] := '\0';
    length := p - 1;
    assert tmp[..length] == out;
  }

  lemma RenamedTurn(out: string, line: string, i: nat, n: nat)
    requires i < |line|
    ensures ISSUE <= line[i..] ==>
              i + 3 <= |line| && out + Renamed(line[i..], n) == (out + Name(n)) + Renamed(line[i + 3..], n)
    ensures !(ISSUE <= line[i..]) ==>
              out + Renamed(line[i..], n) == (out + [line[i]]) + Renamed(line[i + 1..], n)
  {
    if ISSUE <= line[i..] {
      assert line[i..][3..] == line[i + 3..];
    } else {
      assert line[i..][1..] == line[i + 1..];
    }
  }

  // strcpy without the terminator.
  method Store(tmp: array<char>, p: nat, s: string)
    requires p + |s| <= tmp.Length
    modifies tmp
    ensures tmp[..p] == old(tmp[..p]) && tmp[p..p + |s|] == s
    ensures tmp[p + |s|..] == old(tmp[p + |s|..])
    ensures tmp[..p + |s|] == old(tmp[..p]) + s
  {
    for k := 0 to |s|
      invariant tmp[..p] == old(tmp[..p]) && tmp[p..p + k] == s[..k]
      invariant tmp[p + |s|..] == old(tmp[p + |s|..])
    {
      tmp[p + k] := s[k];
    }
  }

  // The rewriting pass over the file.
  method PatchLines(lines: seq<string>) returns (n: nat, patched: seq<string>)
    requires TotalT(lines) < 0x8000_0000
    ensures Fresh(lines, Name(n)) && forall m: nat :: m < n ==> !Fresh(lines, Name(m))
    ensures |patched| == |lines|
    ensures forall k :: 0 <= k < |lines| ==> patched[k] == Renamed(lines[k], n)
  {
    n := FindFreshPrefix(lines);
    patched := [];
    for k := 0 to |lines|
      invariant |patched| == k
      invariant forall j :: 0 <= j < k ==> patched[j] == Renamed(lines[j], n)
    {
      var found := CmpStr(lines[k], ISSUE);
      if found {
        var tmp, length := RewriteLine(lines[k], n);
        patched := patched + [tmp[..length]];
      } else {
        NoOccurrenceUnchanged(lines[k], ISSUE, Name(n));
        patched := patched + [lines[k]];
      }
    }
  }

  // ---------------------------------------------------------------------------------
  // Nothing is captured

  // A word without T that stands at the front of a rewritten line stood there before.
  lemma {:induction false} FrontSurvives(w: string, s: string, n: nat)
    requires forall i :: 0 <= i < |w| ==> w[i] != 'T'
    requires w <= Renamed(s, n)
    ensures w <= s
    decreases |s|
  {
    if w != "" && s != "" {
      var r := Renamed(s, n);
      assert w[0] == r[0];
      if !(ISSUE <= s) {
        assert r == [s[0]] + Renamed(s[1..], n);
        assert w[0] == r[0] && w[1..] <= Renamed(s[1..], n) by { assert r[1..] == Renamed(s[1..], n); }
        FrontSurvives(w[1..], s[1..], n);
        assert s == [s[0]] + s[1..] && w == [w[0]] + w[1..];
      }
    }
  }

  lemma FreshTail(s: string, name: string, k: nat)
    requires !Occurs(s, name) && k <= |s|
    ensures !Occurs(s[k..], name)
  {
    forall i: nat
      ensures !OccursAt(s[k..], name, i)
    {
      if i <= |s[k..]| {
        assert s[k..][i..] == s[k + i..];
        assert !OccursAt(s, name, k + i);
      }
    }
  }

  // Where nothing is inserted, the name is only at the front if it was there before.
  lemma NameAtCopiedChar(s: string, n: nat)
    requires s != "" && !(ISSUE <= s)
    ensures Name(n) <= Renamed(s, n) ==> Name(n) <= s
  {
    var name, r := Name(n), Renamed(s, n);
    assert r == [s[0]] + Renamed(s[1..], n) && r[1..] == Renamed(s[1..], n);
    assert name == [name[0]] + name[1..] && s == [s[0]] + s[1..];
    if name <= r {
      assert name[0] == r[0] && name[1..] <= r[1..];
      FrontSurvives(name[1..], s[1..], n);
    }
  }

  lemma NotAtFront(s: string, name: string)
    requires !Occurs(s, name)
    ensures !(name <= s)
  {
    assert s[0..] == s && !OccursAt(s, name, 0);
  }

  // ROUND TRIP. When T<n>_ does not occur in a line, replacing it by _T_ in the rewritten
  // line gives the line back.
  lemma {:induction false} RenamingIsReversible(s: string, n: nat)
    requires !Occurs(s, Name(n))
    ensures Replace(Renamed(s, n), Name(n), ISSUE) == s
    decreases |s|
  {
    var name, r := Name(n), Renamed(s, n);
    if s == "" {
    } else if ISSUE <= s {
      FreshTail(s, name, 3);
      RenamingIsReversible(s[3..], n);
      assert r == name + Renamed(s[3..], n);
      assert r[|name|..] == Renamed(s[3..], n);
      assert s == ISSUE + s[3..];
    } else {
      FreshTail(s, name, 1);
      RenamingIsReversible(s[1..], n);
      NameAtCopiedChar(s, n);
      NotAtFront(s, name);
      assert r == [s[0]] + Renamed(s[1..], n) && r[1..] == Renamed(s[1..], n);
    }
  }

  // CAPTURE-FREE. Lines that differ stay different, over the whole file.
  lemma RenamingKeepsLinesApart(lines: seq<string>, n: nat, j: nat, k: nat)
    requires Fresh(lines, Name(n)) && j < |lines| && k < |lines|
    ensures Renamed(lines[j], n) == Renamed(lines[k], n) <==> lines[j] == lines[k]
  {
    RenamingIsReversible(lines[j], n);
    RenamingIsReversible(lines[k], n);
  }

  // The places at which the rewriting inserts the name, `base` being where the output of s starts.
  function Insertions(s: string, n: nat, base: nat): set<nat>
    decreases |s|
  {
    if s == "" then {}
    else if ISSUE <= s then {base} + Insertions(s[3..], n, base + |Name(n)|)
    else Insertions(s[1..], n, base + 1)
  }

  lemma {:induction false} InsertionsFrom(s: string, n: nat, base: nat)
    ensures forall p :: p in Insertions(s, n, base) ==> p >= base
    decreases |s|
  {
    if s == "" {
    } else if ISSUE <= s {
      InsertionsFrom(s[3..], n, base + |Name(n)|);
    } else {
      InsertionsFrom(s[1..], n, base + 1);
    }
  }

  // An occurrence past the front of an inserted name lies past all of that name.
  lemma NoOverlap(n: nat, rest: string, i: nat)
    requires 0 < i && OccursAt(Name(n) + rest, Name(n), i)
    ensures i >= |Name(n)| && OccursAt(rest, Name(n), i - |Name(n)|)
  {
    var name, r := Name(n), Name(n) + rest;
    assert r[i..][0] == r[i] == 'T';
    if i >= |name| {
      assert r[i..] == rest[i - |name|..];
    }
  }

  lemma OccursAtShift(x: string, rest: string, needle: string, i: nat)
    ensures OccursAt(x + rest, needle, |x| + i) <==> OccursAt(rest, needle, i)
    ensures OccursAt(rest, needle, 0) <==> needle <= rest
    ensures x == "" ==> x + rest == rest
  {
    if i <= |rest| {
      assert (x + rest)[|x| + i..] == rest[i..];
    }
    assert rest[0..] == rest;
    assert "" + rest == rest;
  }

  // EXACTLY THE INSERTED ONES. The name occurs in the rewritten line at the places where it
  // was inserted and nowhere else.
  lemma {:induction false} OccurrencesAreInsertions(s: string, n: nat, base: nat, i: nat)
    requires !Occurs(s, Name(n))
    ensures OccursAt(Renamed(s, n), Name(n), i) <==> base + i in Insertions(s, n, base)
    decreases |s|
  {
    hide OccursAt, Occurs, Renamed, Name, Insertions;
    var name, r := Name(n), Renamed(s, n);
    ScanTurn(s, n, base);
    OccursAtShift("", r, name, 0);
    NotAtFront(s, name);
    if s == "" {
      NothingOccursInEmpty(name, i);
    } else if ISSUE <= s {
      InsertionsFrom(s[3..], n, base + |name|);
      FreshTail(s, name, 3);
      if i >= |name| {
        OccurrencesAreInsertions(s[3..], n, base + |name|, i - |name|);
        OccursAtShift(name, Renamed(s[3..], n), name, i - |name|);
      } else if i > 0 && OccursAt(r, name, i) {
        NoOverlap(n, Renamed(s[3..], n), i);
      }
    } else {
      InsertionsFrom(s[1..], n, base + 1);
      FreshTail(s, name, 1);
      NameAtCopiedChar(s, n);
      if i > 0 {
        OccurrencesAreInsertions(s[1..], n, base + 1, i - 1);
        OccursAtShift([s[0]], Renamed(s[1..], n), name, i - 1);
      }
    }
  }

  lemma NothingOccursInEmpty(name: string, i: nat)
    requires name != ""
    ensures !OccursAt("", name, i)
  {
  }

  // One turn of the scan.
  lemma ScanTurn(s: string, n: nat, base: nat)
    ensures s == "" ==> Renamed(s, n) == "" && Insertions(s, n, base) == {}
    ensures ISSUE <= s ==>
              && Renamed(s, n) == Name(n) + Renamed(s[3..], n)
              && Name(n) <= Renamed(s, n)
              && Insertions(s, n, base) == {base} + Insertions(s[3..], n, base + |Name(n)|)
    ensures s != "" && !(ISSUE <= s) ==>
              && Renamed(s, n) == [s[0]] + Renamed(s[1..], n)
              && Insertions(s, n, base) == Insertions(s[1..], n, base + 1)
  {
  }

  // ---------------------------------------------------------------------------------
  // What the fix does not do

  // Some replaced _T_ is followed by a T_ that is not itself the start of T + a replaced _T_.
  predicate LeavesIssue(s: string)
    decreases |s|
  {
    if s == "" then false
    else if ISSUE <= s then ("T_" <= s[3..] && !("T_T_" <= s[3..])) || LeavesIssue(s[3..])
    else LeavesIssue(s[1..])
  }

  lemma OccursCons(c: char, s: string, needle: string)
    ensures Occurs([c] + s, needle) <==> needle <= [c] + s || Occurs(s, needle)
  {
    var r := [c] + s;
    if needle <= r {
      assert r[0..] == r && OccursAt(r, needle, 0);
    }
    if i: nat :| OccursAt(s, needle, i) {
      assert r[i + 1..] == s[i..];
      assert OccursAt(r, needle, i + 1);
    }
    if i: nat :| OccursAt(r, needle, i) {
      if i == 0 {
        assert r[0..] == r;
      } else {
        assert r[i..] == s[i - 1..];
        assert OccursAt(s, needle, i - 1);
      }
    }
  }

  // Inside an inserted name no _T_ starts, except at its last character.
  lemma NoIssueInName(n: nat, rest: string, i: nat)
    requires OccursAt(Name(n) + rest, ISSUE, i) && i < |Name(n)|
    ensures i + 1 == |Name(n)|
  {
    var r := Name(n) + rest;
    assert r[i..][1] == r[i + 1] && r[i..][1] == 'T';
  }

  lemma IssueAtNameEnd(n: nat, rest: string)
    ensures OccursAt(Name(n) + rest, ISSUE, |Name(n)| - 1) <==> "T_" <= rest
  {
    var name := Name(n);
    assert (name + rest)[|name| - 1..] == "_" + rest;
    assert ("_" + rest)[1..] == rest && ISSUE == "_" + "T_" && ISSUE[1..] == "T_";
  }

  // After an inserted name, only a T_ can complete another _T_.
  lemma OccursAfterName(n: nat, rest: string)
    ensures Occurs(Name(n) + rest, ISSUE) <==> "T_" <= rest || Occurs(rest, ISSUE)
  {
    hide OccursAt, Name;
    var name, r := Name(n), Name(n) + rest;
    IssueAtNameEnd(n, rest);
    if i: nat :| OccursAt(rest, ISSUE, i) {
      OccursAtShift(name, rest, ISSUE, i);
    }
    if i: nat :| OccursAt(r, ISSUE, i) {
      if i >= |name| {
        OccursAtShift(name, rest, ISSUE, i - |name|);
      } else {
        NoIssueInName(n, rest, i);
      }
    }
  }

  // The rewritten text starts with T_ exactly when the text does and its _ is not replaced.
  lemma FrontOfRenamed(s: string, n: nat)
    ensures "T_" <= Renamed(s, n) <==> "T_" <= s && !("T_T_" <= s)
  {
    var r := Renamed(s, n);
    if s == "" {
    } else if ISSUE <= s {
      assert r == Name(n) + Renamed(s[3..], n);
      assert r[1] == Name(n)[1] && IsDigit(Decimal(n)[0]);
    } else {
      var u := s[1..];
      assert r == [s[0]] + Renamed(u, n) && s == [s[0]] + u;
      if s[0] == 'T' && u != "" {
        if ISSUE <= u {
          assert Renamed(u, n) == Name(n) + Renamed(u[3..], n);
          assert r[1] == Name(n)[0] == 'T';
          assert s[1..4] == ISSUE && s[0..4] == "T_T_";
        } else {
          assert Renamed(u, n) == [u[0]] + Renamed(u[1..], n);
          assert r[1] == u[0];
        }
      }
    }
  }

  lemma IssueAtFront(c: char, s: string)
    ensures ISSUE <= [c] + s <==> c == '_' && "T_" <= s
  {
    var r := [c] + s;
    assert r[1..] == s && ISSUE == "_" + "T_";
    if ISSUE <= r {
      assert r[0] == '_' && r[1] == 'T' && r[2] == '_';
    }
  }

  // EXACT EFFECT. A rewritten line still contains _T_ if and only if the line has a
  // replaced _T_ that shares its last underscore with the next one.
  lemma {:induction false} IssueRemainsExactly(s: string, n: nat)
    ensures Occurs(Renamed(s, n), ISSUE) <==> LeavesIssue(s)
    decreases |s|
  {
    var r := Renamed(s, n);
    if s == "" {
      assert forall i: nat :: !OccursAt(r, ISSUE, i);
    } else if ISSUE <= s {
      IssueRemainsExactly(s[3..], n);
      OccursAfterName(n, Renamed(s[3..], n));
      FrontOfRenamed(s[3..], n);
    } else {
      IssueRemainsExactly(s[1..], n);
      OccursCons(s[0], Renamed(s[1..], n), ISSUE);
      FrontOfRenamed(s[1..], n);
      IssueAtFront(s[0], Renamed(s[1..], n));
      IssueAtFront(s[0], s[1..]);
      assert s == [s[0]] + s[1..];
    }
  }

  // _T_T_ is such a line.
  lemma SharedUnderscore()
    ensures LeavesIssue("_T_T_")
  {
    assert "_T_T_"[3..] == "T_";
  }
}

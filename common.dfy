/** Small value types and string/number helpers shared by every route of the model. */
module Common {

  datatype Option<T> = None | Some(value: T)

  /** An HTTP answer: a status code with either a JSON payload or an `{ error }` body. */
  datatype Reply<T> = Ok(status: int, value: T) | Err(status: int, message: string)

  /** A value returned, or an `Error` thrown with its message. */
  datatype Result<T> = Success(value: T) | Failure(message: string)

  function Min(a: int, b: int): int { if a <= b then a else b }

  function Max(a: int, b: int): int { if a >= b then a else b }

  /** JavaScript truthiness of an optional string: absent and `''` are both falsy. */
  predicate TruthyString(s: Option<string>) { s.Some? && s.value != "" }

  /** JavaScript truthiness of an optional number: absent and `0` are both falsy. */
  predicate TruthyInt(n: Option<int>) { n.Some? && n.value != 0 }

  /** `x || undefined` on an optional string: a falsy value becomes absent. */
  function OrUndefined(s: Option<string>): (r: Option<string>)
    ensures r.Some? <==> TruthyString(s)
    ensures r.Some? ==> r == s
  {
    if TruthyString(s) then s else None
  }

  /** `s || fallback` on an optional string. */
  function OrElse(s: Option<string>, fallback: string): (r: string)
    ensures TruthyString(s) ==> r == s.value
    ensures !TruthyString(s) ==> r == fallback
  {
    if TruthyString(s) then s.value else fallback
  }

  /** `String.prototype.startsWith`. */
  predicate StartsWith(s: string, prefix: string) {
    |prefix| <= |s| && s[..|prefix|] == prefix
  }

  lemma PrefixStartsWith(prefix: string, rest: string)
    ensures StartsWith(prefix + rest, prefix)
  {
    assert (prefix + rest)[..|prefix|] == prefix;
  }

  /** `String.prototype.includes` / SQL `LIKE '%sub%'`: `sub` occurs somewhere in `s`. */
  predicate Contains(s: string, sub: string)
    decreases |s|
  {
    StartsWith(s, sub) || (|s| > 0 && Contains(s[1..], sub))
  }

  /** `sub` occurs in `s` starting at position `i`. */
  predicate OccursAt(s: string, sub: string, i: int) {
    0 <= i && i + |sub| <= |s| && s[i..i + |sub|] == sub
  }

  lemma {:induction false} ContainsAt(s: string, sub: string)
    ensures Contains(s, sub) <==> exists i :: OccursAt(s, sub, i)
    decreases |s|
  {
    if StartsWith(s, sub) {
      assert OccursAt(s, sub, 0);
    }
    if |s| > 0 {
      ContainsAt(s[1..], sub);
      if Contains(s[1..], sub) {
        var i :| OccursAt(s[1..], sub, i);
        assert s[i + 1..i + 1 + |sub|] == s[1..][i..i + |sub|];
        assert OccursAt(s, sub, i + 1);
      }
      if exists i :: OccursAt(s, sub, i) {
        var i :| OccursAt(s, sub, i);
        if i > 0 {
          assert s[1..][i - 1..i - 1 + |sub|] == s[i..i + |sub|];
          assert OccursAt(s[1..], sub, i - 1);
        }
      }
    } else if exists i :: OccursAt(s, sub, i) {
      var i :| OccursAt(s, sub, i);
      assert sub == [];
    }
  }

  /** Case folding of one character; only the ASCII letters are folded. */
  function LowerChar(c: char): char {
    if 'A' <= c <= 'Z' then (c as int + 32) as char else c
  }

  function ToLower(s: string): (r: string)
    ensures |r| == |s|
    ensures forall i :: 0 <= i < |s| ==> r[i] == LowerChar(s[i])
  {
    seq(|s|, i requires 0 <= i < |s| => LowerChar(s[i]))
  }

  /** Case-insensitive containment, as the store's `mode: 'insensitive'` filter does it. */
  predicate ContainsInsensitive(s: string, sub: string) {
    Contains(ToLower(s), ToLower(sub))
  }

  /**
    The characters `String.prototype.trim` removes: the WhiteSpace and LineTerminator code
    points of ECMAScript (sections 12.2 and 12.3 of ECMA-262), the space separators (Zs)
    taken as of Unicode 15.
  */
  predicate IsSpace(c: char) {
    c in Blanks
  }

  const Blanks: set<char> := {
    // WhiteSpace other than Zs
    '\t', '\U{0B}', '\U{0C}', '\U{FEFF}',
    // LineTerminator
    '\n', '\r', '\U{2028}', '\U{2029}',
    // Zs
    ' ', '\U{A0}', '\U{1680}', '\U{2000}', '\U{2001}', '\U{2002}', '\U{2003}', '\U{2004}', '\U{2005}',
    '\U{2006}', '\U{2007}', '\U{2008}', '\U{2009}', '\U{200A}', '\U{202F}', '\U{205F}', '\U{3000}'
  }

  /** The number of white-space characters `s` starts with. */
  function LeadingBlanks(s: string): (n: nat)
    ensures n <= |s|
    ensures forall i :: 0 <= i < n ==> IsSpace(s[i])
    ensures n < |s| ==> !IsSpace(s[n])
  {
    if s != [] && IsSpace(s[0]) then
      var m := LeadingBlanks(s[1..]);
      assert forall i :: 0 < i < |s| ==> s[i] == s[1..][i - 1];
      1 + m
    else 0
  }

  /** The number of white-space characters `s` ends with. */
  function TrailingBlanks(s: string): (n: nat)
    ensures n <= |s|
    ensures forall i :: |s| - n <= i < |s| ==> IsSpace(s[i])
    ensures n < |s| ==> !IsSpace(s[|s| - n - 1])
  {
    if s != [] && IsSpace(s[|s| - 1]) then
      var m := TrailingBlanks(s[..|s| - 1]);
      assert forall i :: 0 <= i < |s| - 1 ==> s[i] == s[..|s| - 1][i];
      1 + m
    else 0
  }

  /**
    `String.prototype.trim`: `s` with its leading and trailing white space removed, and nothing
    else. The result starts where the leading white space ends, everything after it is white
    space, and it is empty exactly when `s` is all white space.
  */
  function Trim(s: string): (r: string)
    ensures r == [] || (!IsSpace(r[0]) && !IsSpace(r[|r| - 1]))
    ensures var a := LeadingBlanks(s);
            && a + |r| <= |s| && r == s[a..a + |r|]
            && forall i :: a + |r| <= i < |s| ==> IsSpace(s[i])
    ensures r == [] <==> forall i :: 0 <= i < |s| ==> IsSpace(s[i])
  {
    var a := LeadingBlanks(s);
    if a == |s| then []
    else
      var b := TrailingBlanks(s);
      assert a < |s| - b;
      s[a..|s| - b]
  }

  /** `Math.ceil(total / limit)` for a count and a positive page size. */
  function CeilDiv(total: nat, limit: nat): (pages: nat)
    requires limit >= 1
    ensures total <= pages * limit
    ensures pages == 0 || (pages - 1) * limit < total
  {
    var q := (total + limit - 1) / limit;
    assert q * limit + (total + limit - 1) % limit == total + limit - 1;
    q
  }

  /**
    `parseInt(String(cents / 100))` for a decimal amount held as cents: the integral part of the
    euro amount, truncated toward zero whatever the sign.
  */
  function WholeEuros(cents: int): (euros: int)
    ensures cents >= 0 ==> 0 <= euros * 100 <= cents < euros * 100 + 100
    ensures cents < 0 ==> euros * 100 - 100 < cents <= euros * 100 <= 0
  {
    if cents >= 0 then cents / 100 else -((-cents) / 100)
  }

  /** `r` is `s` with some elements left out, the others kept in their order. */
  ghost predicate IsSubsequence<T>(r: seq<T>, s: seq<T>)
    decreases |s|
  {
    r == [] || (s != [] && ((r[0] == s[0] && IsSubsequence(r[1..], s[1..])) || IsSubsequence(r, s[1..])))
  }

  /**
    `Array.prototype.filter`, or a `where` clause: the elements kept by `keep`, in order, each
    as many times as it occurs in `s`.
  */
  function Select<T(!new)>(s: seq<T>, keep: T -> bool): (r: seq<T>)
    ensures |r| <= |s|
    ensures forall x :: x in r <==> x in s && keep(x)
    ensures forall x :: multiset(r)[x] == if keep(x) then multiset(s)[x] else 0
    ensures IsSubsequence(r, s)
  {
    if s == [] then []
    else
      var rest := Select(s[1..], keep);
      assert s == [s[0]] + s[1..];
      if keep(s[0]) then
        var r := [s[0]] + rest;
        assert r[0] == s[0] && r[1..] == rest;
        r
      else
        assert [] + rest == rest;
        rest
  }

  /** A filter that keeps every element is the identity. */
  lemma {:induction false} SelectAll<T(!new)>(s: seq<T>, keep: T -> bool)
    requires forall x :: x in s ==> keep(x)
    ensures Select(s, keep) == s
  {
    if s != [] {
      SelectAll(s[1..], keep);
    }
  }

  /** `(page - 1) * limit`: the number of rows before page `page` of size `limit`. */
  function PageOffset(page: int, limit: int): (skip: nat)
    requires page >= 1 && limit >= 1
    ensures skip == (page - 1) * limit
  {
    var a: nat := page - 1;
    var b: nat := limit;
    NatProduct(a, b);
    a * b
  }

  lemma NatProduct(a: nat, b: nat)
    ensures a * b >= 0
  {
  }

  /** Prisma's `skip`/`take`: the rows from position `skip`, at most `take` of them. */
  function Window<T>(s: seq<T>, skip: nat, take: nat): (r: seq<T>)
    ensures |r| <= take
    ensures |r| == Min(take, Max(0, |s| - skip))
    ensures forall i :: 0 <= i < |r| ==> r[i] == s[skip + i]
  {
    if skip >= |s| then [] else s[skip..Min(skip + take, |s|)]
  }
}

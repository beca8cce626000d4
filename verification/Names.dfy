/** Names made from namespaces (common/pkg/ns/ns.go). A string is its bytes. */
module Names {
  import opened Common

  type Text = seq<bv8>

  const DASH: bv8 := 0x2D
  const SLASH: bv8 := 0x2F

  const SUFFIX_LEN := 14

  /** The limit every caller uses: the length of a label in section 2.3.4 of RFC 1035. */
  const LABEL_LIMIT := 63

  /** 64-bit FNV-1: multiply, then exclusive-or with the byte. */
  function FnvStep(h: bv64, b: bv8): bv64
  {
    (h * 1099511628211) ^ (b as bv64)
  }

  function Fnv(s: Text): bv64
  {
    if s == [] then 14695981039346656037 else FnvStep(Fnv(s[..|s| - 1]), s[|s| - 1])
  }

  const BASE := 36

  /** The character of a digit: 0 to 9, then a to z. */
  function Char(d: int): bv8
    requires 0 <= d < BASE
  {
    match d
    case 0 => 0x30
    case 1 => 0x31
    case 2 => 0x32
    case 3 => 0x33
    case 4 => 0x34
    case 5 => 0x35
    case 6 => 0x36
    case 7 => 0x37
    case 8 => 0x38
    case 9 => 0x39
    case 10 => 0x61
    case 11 => 0x62
    case 12 => 0x63
    case 13 => 0x64
    case 14 => 0x65
    case 15 => 0x66
    case 16 => 0x67
    case 17 => 0x68
    case 18 => 0x69
    case 19 => 0x6A
    case 20 => 0x6B
    case 21 => 0x6C
    case 22 => 0x6D
    case 23 => 0x6E
    case 24 => 0x6F
    case 25 => 0x70
    case 26 => 0x71
    case 27 => 0x72
    case 28 => 0x73
    case 29 => 0x74
    case 30 => 0x75
    case 31 => 0x76
    case 32 => 0x77
    case 33 => 0x78
    case 34 => 0x79
    case _ => 0x7A
  }

  /** The digit of a character. */
  function Digit(c: bv8): int
  {
    match c
    case 0x30 => 0
    case 0x31 => 1
    case 0x32 => 2
    case 0x33 => 3
    case 0x34 => 4
    case 0x35 => 5
    case 0x36 => 6
    case 0x37 => 7
    case 0x38 => 8
    case 0x39 => 9
    case 0x61 => 10
    case 0x62 => 11
    case 0x63 => 12
    case 0x64 => 13
    case 0x65 => 14
    case 0x66 => 15
    case 0x67 => 16
    case 0x68 => 17
    case 0x69 => 18
    case 0x6A => 19
    case 0x6B => 20
    case 0x6C => 21
    case 0x6D => 22
    case 0x6E => 23
    case 0x6F => 24
    case 0x70 => 25
    case 0x71 => 26
    case 0x72 => 27
    case 0x73 => 28
    case 0x74 => 29
    case 0x75 => 30
    case 0x76 => 31
    case 0x77 => 32
    case 0x78 => 33
    case 0x79 => 34
    case 0x7A => 35
    case _ => 0
  }

  lemma LowDigitOfChar(d: int)
    requires 0 <= d < 18
    ensures Digit(Char(d)) == d && Char(d) != DASH
  {
  }

  lemma HighDigitOfChar(d: int)
    requires 18 <= d < BASE
    ensures Digit(Char(d)) == d && Char(d) != DASH
  {
  }

  lemma DigitOfChar(d: int)
    requires 0 <= d < BASE
    ensures Digit(Char(d)) == d && Char(d) != DASH
  {
    if d < 18 {
      LowDigitOfChar(d);
    } else {
      HighDigitOfChar(d);
    }
  }

  /** The digits of a number, the last one first; none for zero. */
  function Digits(n: nat): Text
  {
    if n == 0 then [] else [Char(n % BASE)] + Digits(n / BASE)
  }

  /** The number with these digits. */
  function Value(ds: Text): int
  {
    if ds == [] then 0 else Digit(ds[0]) + BASE * Value(ds[1..])
  }

  lemma {:induction false} DigitsRoundTrip(n: nat)
    ensures Value(Digits(n)) == n && DASH !in Digits(n)
  {
    if n > 0 {
      DigitOfChar(n % BASE);
      DigitsRoundTrip(n / BASE);
      assert Digits(n)[1..] == Digits(n / BASE);
    }
  }

  function Power(k: nat): nat
  {
    if k == 0 then 1 else BASE * Power(k - 1)
  }

  /** A number below the k-th power of the base has at most k digits. */
  lemma {:induction false} DigitsAreFew(n: nat, k: nat)
    requires n < Power(k)
    ensures |Digits(n)| <= k
    decreases k
  {
    if n > 0 {
      assert k > 0;
      DigitsAreFew(n / BASE, k - 1);
    }
  }

  /** The hash as a number. */
  function Hash(s: Text): (h: nat)
    ensures h < 0x1_0000_0000_0000_0000
  {
    Fnv(s) as nat
  }

  function Suffix(hash: nat): Text
  {
    [DASH] + Digits(hash)
  }

  /** The suffix of a 64-bit number always fits in the room that is kept for it. */
  lemma SuffixFits(hash: nat)
    requires hash < 0x1_0000_0000_0000_0000
    ensures 1 <= |Suffix(hash)| <= SUFFIX_LEN
  {
    assert Power(13) == 170581728179578208256;
    DigitsAreFew(hash, 13);
  }

  method AppendDigits(hash: nat) returns (c: Text)
    ensures c == Suffix(hash)
  {
    var i: nat := hash;
    c := [DASH];
    while i > 0
      invariant c + Digits(i) == Suffix(hash)
      decreases i
    {
      assert Digits(i) == [Char(i % BASE)] + Digits(i / BASE);
      c := c + [Char(i % BASE)];
      i := i / BASE;
    }
  }

  /** hashSuffix. */
  method HashSuffix(s: Text) returns (c: Text)
    ensures c == Suffix(Hash(s)) && |c| <= SUFFIX_LEN
  {
    c := AppendDigits(Hash(s));
    SuffixFits(Hash(s));
  }

  /** The two parts joined with a dash, or the one that is not empty. */
  function Joined(s1: Text, s2: Text): Text
  {
    if s2 == [] then s1 else if s1 == [] then s2 else s1 + [DASH] + s2
  }

  /** What may stay of the joined name in front of a suffix. */
  function Clipped(j: Text, room: nat): (r: Text)
    ensures r <= j && |r| <= room && (|r| == room || r == j)
  {
    if |j| > room then j[..room] else j
  }

  predicate Hashed(s1: Text, s2: Text, limit: int, always: bool)
  {
    always || |Joined(s1, s2)| >= limit
  }

  function Munged(s1: Text, s2: Text, limit: int, always: bool): Text
    requires limit >= SUFFIX_LEN
  {
    if Hashed(s1, s2, limit, always) then Clipped(Joined(s1, s2), limit - SUFFIX_LEN) + Suffix(Hash(s1 + [SLASH] + s2))
    else Joined(s1, s2)
  }

  /** munge; with less room than a suffix takes, the source would fail. */
  method Munge(s1: Text, s2: Text, limit: int, always: bool) returns (j: Text)
    requires limit >= SUFFIX_LEN
    ensures j == Munged(s1, s2, limit, always) && |j| <= limit
  {
    j := s1 + [DASH] + s2;
    if |s1| == 0 {
      j := s2;
    }
    if |s2| == 0 {
      j := s1;
    }
    if always || |j| >= limit {
      if |j| > limit - SUFFIX_LEN {
        j := j[..limit - SUFFIX_LEN];
      }
      var c := HashSuffix(s1 + [SLASH] + s2);
      j := j + c;
    }
  }

  /** Every name fits the limit; a hashed one ends with its whole suffix, behind as much of the name as fits. */
  lemma MungedFits(s1: Text, s2: Text, limit: int, always: bool)
    requires limit >= SUFFIX_LEN
    ensures var r := Munged(s1, s2, limit, always);
            && |r| <= limit
            && (if always || |Joined(s1, s2)| >= limit then
                  exists p :: r == p + Suffix(Hash(s1 + [SLASH] + s2)) && p <= Joined(s1, s2) && (|p| == limit - SUFFIX_LEN || p == Joined(s1, s2))
                else r == Joined(s1, s2))
  {
    SuffixFits(Hash(s1 + [SLASH] + s2));
    if Hashed(s1, s2, limit, always) {
      var p := Clipped(Joined(s1, s2), limit - SUFFIX_LEN);
      assert Munged(s1, s2, limit, always) == p + Suffix(Hash(s1 + [SLASH] + s2));
    }
  }

  /** The suffix of a name, and with it the hash, can be read back. */
  lemma SuffixIsUnambiguous(p: Text, m: nat, q: Text, n: nat)
    requires p + Suffix(m) == q + Suffix(n)
    ensures m == n
  {
    DigitsRoundTrip(m);
    DigitsRoundTrip(n);
    assert p + [DASH] + Digits(m) == p + Suffix(m) && q + [DASH] + Digits(n) == q + Suffix(n);
    SameBehindDash(p, Digits(m), q, Digits(n));
  }

  lemma SameBehindDash(p: Text, d: Text, q: Text, e: Text)
    requires p + [DASH] + d == q + [DASH] + e && DASH !in d && DASH !in e
    ensures d == e
  {
    var s := p + [DASH] + d;
    DashAt(p, d, |q|);
    DashAt(q, e, |p|);
    assert |p| == |q|;
    assert d == s[|p| + 1..] && e == s[|q| + 1..];
  }

  /** Zero has no digits: for that hash, and for no other, a hashed name ends in a dash, as a label must not. */
  lemma EndsInDashIff(p: Text, hash: nat)
    ensures var name := p + Suffix(hash); name[|name| - 1] == DASH <==> hash == 0
  {
    DigitsRoundTrip(hash);
    var name, ds := p + Suffix(hash), Digits(hash);
    if hash > 0 {
      assert name[|name| - 1] == ds[|ds| - 1] && ds[|ds| - 1] in ds;
    }
  }

  lemma HashGrows(s: Text, b: bv8, h: bv64, r: bv64)
    requires Fnv(s) == h && FnvStep(h, b) == r
    ensures Fnv(s + [b]) == r
  {
    assert (s + [b])[..|s|] == s;
  }

  /** Two strings that hash to zero together: the name made of them ends in a dash. */
  const ZERO1: Text := [0x92, 0x06, 0x77, 0x4C, 0xE0]
  const ZERO2: Text := [0x89, 0x2A, 0xD2]

  lemma ZeroHash(s: Text) returns (r: Text)
    requires Fnv(s) == 14695981039346656037
    ensures r == s + [0x92] + [0x06] + [0x77] + [0x4C] + [0xE0] + [0x2F] + [0x89] + [0x2A] + [0xD2] && Fnv(r) == 0
  {
    r := s;
    HashGrows(r, 0x92, 0xCBF29CE484222325, 0xAF63BD4C8601B74D);
    r := r + [0x92];
    HashGrows(r, 0x06, 0xAF63BD4C8601B74D, 0x831F607B4EA77D1);
    r := r + [0x06];
    HashGrows(r, 0x77, 0x831F607B4EA77D1, 0xD75CE0186A699854);
    r := r + [0x77];
    HashGrows(r, 0x4C, 0xD75CE0186A699854, 0x5C691D7CD16DD6F0);
    r := r + [0x4C];
    HashGrows(r, 0xE0, 0x5C691D7CD16DD6F0, 0x74740B17DDA43930);
    r := r + [0xE0];
    HashGrows(r, 0x2F, 0x74740B17DDA43930, 0x8568098D9E0D2CBF);
    r := r + [0x2F];
    HashGrows(r, 0x89, 0x8568098D9E0D2CBF, 0xBCF4FAA390630804);
    r := r + [0x89];
    HashGrows(r, 0x2A, 0xBCF4FAA390630804, 0x774DE7EE58469EE6);
    r := r + [0x2A];
    HashGrows(r, 0xD2, 0x774DE7EE58469EE6, 0x0);
    r := r + [0xD2];
  }

  lemma ZeroHashExists()
    ensures Hash(ZERO1 + [SLASH] + ZERO2) == 0
    ensures Munged(ZERO1, ZERO2, LABEL_LIMIT, true) == ZERO1 + [DASH] + ZERO2 + [DASH]
  {
    var r := ZeroHash([]);
    assert r == ZERO1 + [SLASH] + ZERO2;
    assert Digits(0) == [];
  }

  /** Behind the dash there is no other. */
  lemma DashAt(p: Text, d: Text, i: nat)
    requires DASH !in d
    ensures var s := p + [DASH] + d; s[|p|] == DASH && (|p| < i < |s| ==> s[i] != DASH)
  {
    var s := p + [DASH] + d;
    assert |p| < i < |s| ==> s[i] == d[i - |p| - 1];
  }

  /** Two hashed names are equal only if the hashes are. */
  lemma EqualNamesHaveEqualHashes(s1: Text, s2: Text, t1: Text, t2: Text, limit: int, always: bool)
    requires limit >= SUFFIX_LEN && Hashed(s1, s2, limit, always) && Hashed(t1, t2, limit, always)
    requires Munged(s1, s2, limit, always) == Munged(t1, t2, limit, always)
    ensures Hash(s1 + [SLASH] + s2) == Hash(t1 + [SLASH] + t2)
  {
    SuffixIsUnambiguous(Clipped(Joined(s1, s2), limit - SUFFIX_LEN), Hash(s1 + [SLASH] + s2),
                        Clipped(Joined(t1, t2), limit - SUFFIX_LEN), Hash(t1 + [SLASH] + t2));
  }

  // ---- The mappers ----

  datatype Mapper = Same | Prefixer(prefix: Text) | Redirect(target: Text) | Swapper(oldPrefix: Text, newPrefix: Text)

  function TrimPrefix(s: Text, prefix: Text): Text
  {
    if prefix <= s then s[|prefix|..] else s
  }

  function DestName(m: Mapper, ns: Text, name: Text): Text
  {
    if m.Redirect? then Munged(ns, name, LABEL_LIMIT, true) else name
  }

  function DestNamespace(m: Mapper, ns: Text): Text
  {
    match m
    case Same => ns
    case Prefixer(prefix) => Munged(prefix, ns, LABEL_LIMIT, false)
    case Redirect(target) => target
    case Swapper(oldPrefix, newPrefix) => Munged([], newPrefix + TrimPrefix(ns, oldPrefix), LABEL_LIMIT, false)
  }

  /** Redirected names are no longer than a label may be, and collide only if their hashes do. */
  lemma RedirectedNamesFit(target: Text, ns1: Text, n1: Text, ns2: Text, n2: Text)
    ensures |DestName(Redirect(target), ns1, n1)| <= LABEL_LIMIT
    ensures DestName(Redirect(target), ns1, n1) == DestName(Redirect(target), ns2, n2) ==>
              Hash(ns1 + [SLASH] + n1) == Hash(ns2 + [SLASH] + n2)
  {
    MungedFits(ns1, n1, LABEL_LIMIT, true);
    if DestName(Redirect(target), ns1, n1) == DestName(Redirect(target), ns2, n2) {
      EqualNamesHaveEqualHashes(ns1, n1, ns2, n2, LABEL_LIMIT, true);
    }
  }

  /** What is behind the prefix and the dash, if that is what the name is made of. */
  function Behind(prefix: Text, name: Text): Option<Text>
  {
    if prefix == [] then Some(name)
    else if name == prefix then Some([])
    else if |name| > |prefix| + 1 && prefix + [DASH] <= name then Some(name[|prefix| + 1..])
    else None
  }

  lemma BehindIsInverse(prefix: Text, ns: Text, name: Text)
    ensures Joined(prefix, ns) == name <==> Behind(prefix, name) == Some(ns)
  {
    if prefix != [] && ns != [] {
      var j := prefix + [DASH] + ns;
      assert j[|prefix| + 1..] == ns && prefix + [DASH] <= j;
      if Behind(prefix, name) == Some(ns) {
        assert name == prefix + [DASH] + name[|prefix| + 1..];
      }
    }
  }

  /**
   Prefixed namespaces are no longer than a label may be. Two short ones never collide; two long ones only if
   their hashes do; a short one collides with a long one exactly if it is what is behind the prefix in the
   name that is made of the long one.
   */
  lemma PrefixedNamespacesFit(prefix: Text, ns1: Text, ns2: Text)
    ensures |DestNamespace(Prefixer(prefix), ns1)| <= LABEL_LIMIT
    ensures var long1, long2 := |Joined(prefix, ns1)| >= 63, |Joined(prefix, ns2)| >= 63;
            var d1, d2 := DestNamespace(Prefixer(prefix), ns1), DestNamespace(Prefixer(prefix), ns2);
            && (!long1 && !long2 ==> (d1 == d2 <==> ns1 == ns2))
            && (long1 && long2 && d1 == d2 ==> Hash(prefix + [SLASH] + ns1) == Hash(prefix + [SLASH] + ns2))
            && (!long1 && long2 ==> (d1 == d2 <==> Behind(prefix, d2) == Some(ns1)))
  {
    MungedFits(prefix, ns1, LABEL_LIMIT, false);
    var d1, d2 := DestNamespace(Prefixer(prefix), ns1), DestNamespace(Prefixer(prefix), ns2);
    BehindIsInverse(prefix, ns1, d2);
    BehindIsInverse(prefix, ns2, d2);
    if Hashed(prefix, ns1, LABEL_LIMIT, false) && Hashed(prefix, ns2, LABEL_LIMIT, false) && d1 == d2 {
      EqualNamesHaveEqualHashes(prefix, ns1, prefix, ns2, LABEL_LIMIT, false);
    }
  }

  /** Names without a prefix: the same three cases. */
  lemma PlainNames(n1: Text, n2: Text)
    ensures var d1, d2 := Munged([], n1, LABEL_LIMIT, false), Munged([], n2, LABEL_LIMIT, false);
            var long1, long2 := |n1| >= LABEL_LIMIT, |n2| >= LABEL_LIMIT;
            && |d1| <= LABEL_LIMIT
            && (!long1 && !long2 ==> (d1 == d2 <==> n1 == n2))
            && (long1 && long2 && d1 == d2 ==> Hash([SLASH] + n1) == Hash([SLASH] + n2))
            && (!long1 && long2 ==> (d1 == d2 <==> n1 == d2))
  {
    MungedFits([], n1, LABEL_LIMIT, false);
    assert [] + [SLASH] + n1 == [SLASH] + n1 && [] + [SLASH] + n2 == [SLASH] + n2;
    if |n1| >= LABEL_LIMIT && |n2| >= LABEL_LIMIT && Munged([], n1, LABEL_LIMIT, false) == Munged([], n2, LABEL_LIMIT, false) {
      EqualNamesHaveEqualHashes([], n1, [], n2, LABEL_LIMIT, false);
    }
  }

  lemma Extends(p: Text, t: Text, d: Text)
    ensures p + t == d <==> p <= d && t == d[|p|..]
  {
    assert (p + t)[|p|..] == t;
    assert p <= d ==> d == p + d[|p|..];
  }

  lemma SamePrefix(p: Text, t: Text, u: Text)
    ensures p + t == p + u <==> t == u
  {
    assert (p + t)[|p|..] == t && (p + u)[|p|..] == u;
  }

  /**
   Swapping prefixes merges two namespaces with short results exactly if they agree behind the old prefix, two
   with long results only if the hashes agree, and a short with a long one exactly if the new prefix and what
   is behind the old one make the name of the long one.
   */
  lemma SwappedNamespacesMergeIff(oldPrefix: Text, newPrefix: Text, ns1: Text, ns2: Text)
    ensures |DestNamespace(Swapper(oldPrefix, newPrefix), ns1)| <= LABEL_LIMIT
    ensures var t1, t2 := TrimPrefix(ns1, oldPrefix), TrimPrefix(ns2, oldPrefix);
            var long1, long2 := |newPrefix + t1| >= LABEL_LIMIT, |newPrefix + t2| >= LABEL_LIMIT;
            var d1, d2 := DestNamespace(Swapper(oldPrefix, newPrefix), ns1), DestNamespace(Swapper(oldPrefix, newPrefix), ns2);
            && (!long1 && !long2 ==> (d1 == d2 <==> t1 == t2))
            && (long1 && long2 && d1 == d2 ==> Hash([SLASH] + (newPrefix + t1)) == Hash([SLASH] + (newPrefix + t2)))
            && (!long1 && long2 ==> (d1 == d2 <==> newPrefix <= d2 && t1 == d2[|newPrefix|..]))
  {
    var t1, t2 := TrimPrefix(ns1, oldPrefix), TrimPrefix(ns2, oldPrefix);
    PlainNames(newPrefix + t1, newPrefix + t2);
    SamePrefix(newPrefix, t1, t2);
    Extends(newPrefix, t1, DestNamespace(Swapper(oldPrefix, newPrefix), ns2));
  }
}

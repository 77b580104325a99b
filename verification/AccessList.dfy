/** The allowlist of src/vault/access.py. Each stored list is sorted and free of repeats, so it
    is modelled as the set of its members. */
module AccessList {
  import opened Hashing
  import opened Outcomes
  import opened Protocol

  type Rules = map<ModelId, set<PubKey>>

  const EVERY_MODEL: ModelId := "*"

  predicate IsSpace(c: char) { c in " \t\n\r\U{0B}\U{0C}" }

  predicate IsHex(c: char) { '0' <= c <= '9' || 'a' <= c <= 'f' || 'A' <= c <= 'F' }

  /** How many bytes `bytes.fromhex` reads from `s`, or none where it raises ValueError. */
  function HexBytes(s: string): Option<nat> {
    if s == [] then Some(0)
    else if IsSpace(s[0]) then HexBytes(s[1..])
    else if |s| < 2 || !IsHex(s[0]) || !IsHex(s[1]) then None
    else match HexBytes(s[2..])
         case None => None
         case Some(n) => Some(n + 1)
  }

  // ---------------------------------------------------------------- which texts are read as bytes

  predicate HexDigit(c: char) { c in "0123456789abcdefABCDEF" }

  /** Tab, line feed, vertical tab, form feed, carriage return and space. */
  predicate WhiteSpace(c: char) { c as int in {9, 10, 11, 12, 13, 32} }

  /** The pairs in order, with the gaps before, between and after them. */
  function Spell(pairs: seq<(char, char)>, gaps: seq<string>): string
    requires |gaps| == |pairs| + 1
  {
    if pairs == [] then gaps[0]
    else gaps[0] + [pairs[0].0, pairs[0].1] + Spell(pairs[1..], gaps[1..])
  }

  /** `s` is spelled with these pairs of hex digits and gaps of white space. */
  ghost predicate Spells(s: string, pairs: seq<(char, char)>, gaps: seq<string>) {
    && |gaps| == |pairs| + 1 && s == Spell(pairs, gaps)
    && (forall p :: p in pairs ==> HexDigit(p.0) && HexDigit(p.1))
    && (forall g, c :: g in gaps && c in g ==> WhiteSpace(c))
  }

  /** The characters in the words of the classes that `fromhex` knows. */
  lemma Classes(c: char)
    ensures IsHex(c) <==> HexDigit(c)
    ensures IsSpace(c) <==> WhiteSpace(c)
    ensures !(IsHex(c) && IsSpace(c))
  {
    if IsHex(c) {
      var digits := "0123456789abcdefABCDEF";
      var i := if c <= '9' then c as int - '0' as int
               else if c >= 'a' then c as int - 'a' as int + 10 else c as int - 'A' as int + 16;
      assert digits[i] == c;
    }
  }

  /** A text is read as `n` bytes if and only if it is `n` pairs of hex digits, with white space anywhere but inside
      a pair. */
  lemma HexBytesIff(s: string, n: nat)
    ensures HexBytes(s) == Some(n) <==> exists pairs, gaps :: |pairs| == n && Spells(s, pairs, gaps)
  {
    hide HexDigit, WhiteSpace, IsHex, IsSpace;
    if HexBytes(s) == Some(n) {
      var pairs, gaps := Spelling(s, n);
      assert |pairs| == n && Spells(s, pairs, gaps);
    }
    forall pairs, gaps | |pairs| == n && Spells(s, pairs, gaps)
      ensures HexBytes(s) == Some(n)
    {
      SpelledIsRead(s, pairs, gaps);
    }
  }

  lemma {:induction false} Spelling(s: string, n: nat) returns (pairs: seq<(char, char)>, gaps: seq<string>)
    requires HexBytes(s) == Some(n)
    ensures |pairs| == n && Spells(s, pairs, gaps)
  {
    hide HexDigit, WhiteSpace, IsHex, IsSpace;
    if s == [] {
      pairs, gaps := [], [""];
    } else if IsSpace(s[0]) {
      Classes(s[0]);
      pairs, gaps := Spelling(s[1..], n);
      GapBefore(s, pairs, gaps);
      gaps := [[s[0]] + gaps[0]] + gaps[1..];
    } else {
      Classes(s[0]);
      Classes(s[1]);
      pairs, gaps := Spelling(s[2..], n - 1);
      PairBefore(s, pairs, gaps);
      pairs, gaps := [(s[0], s[1])] + pairs, [""] + gaps;
    }
  }

  lemma GapBefore(s: string, pairs: seq<(char, char)>, gaps: seq<string>)
    requires s != [] && WhiteSpace(s[0]) && Spells(s[1..], pairs, gaps)
    ensures Spells(s, pairs, [[s[0]] + gaps[0]] + gaps[1..])
  {
    hide HexDigit, WhiteSpace;
    var more := [[s[0]] + gaps[0]] + gaps[1..];
    assert more[1..] == gaps[1..];
    assert s == [s[0]] + s[1..];
    if pairs != [] {
      var rest := Spell(pairs[1..], gaps[1..]);
      assert [s[0]] + (gaps[0] + [pairs[0].0, pairs[0].1] + rest)
          == ([s[0]] + gaps[0]) + [pairs[0].0, pairs[0].1] + rest;
    }
    forall g, c | g in more && c in g ensures WhiteSpace(c) {
      if g !in gaps[1..] { assert g == more[0] && gaps[0] in gaps; }
    }
  }

  lemma PairBefore(s: string, pairs: seq<(char, char)>, gaps: seq<string>)
    requires |s| >= 2 && HexDigit(s[0]) && HexDigit(s[1]) && Spells(s[2..], pairs, gaps)
    ensures Spells(s, [(s[0], s[1])] + pairs, [""] + gaps)
  {
    hide HexDigit, WhiteSpace, IsHex, IsSpace;
    var more, around := [(s[0], s[1])] + pairs, [""] + gaps;
    assert more[1..] == pairs && around[1..] == gaps;
    assert s == "" + [s[0], s[1]] + s[2..];
  }

  lemma {:induction false} SpelledIsRead(s: string, pairs: seq<(char, char)>, gaps: seq<string>)
    requires |gaps| == |pairs| + 1 && Spells(s, pairs, gaps)
    ensures HexBytes(s) == Some(|pairs|)
    decreases |s|
  {
    hide HexDigit, WhiteSpace, IsHex, IsSpace, Spells, Spell;
    if s == [] {
      NothingSpelled(pairs, gaps);
    } else {
      Classes(s[0]);
      if gaps[0] != [] {
        WithoutSpace(s, pairs, gaps);
        SpelledIsRead(s[1..], pairs, [gaps[0][1..]] + gaps[1..]);
      } else {
        WithoutPair(s, pairs, gaps);
        Classes(s[1]);
        SpelledIsRead(s[2..], pairs[1..], gaps[1..]);
      }
    }
  }

  lemma NothingSpelled(pairs: seq<(char, char)>, gaps: seq<string>)
    requires Spells("", pairs, gaps)
    ensures pairs == []
  {
  }

  lemma WithoutSpace(s: string, pairs: seq<(char, char)>, gaps: seq<string>)
    requires Spells(s, pairs, gaps) && gaps[0] != []
    ensures s != [] && WhiteSpace(s[0]) && Spells(s[1..], pairs, [gaps[0][1..]] + gaps[1..])
  {
    hide HexDigit, WhiteSpace;
    var gap, more := gaps[0], [gaps[0][1..]] + gaps[1..];
    assert more[1..] == gaps[1..] && gap[0] in gap && forall c :: c in gap[1..] ==> c in gap;
    if pairs == [] {
      assert s == gap;
    } else {
      var rest := Spell(pairs[1..], gaps[1..]);
      assert s == gap + [pairs[0].0, pairs[0].1] + rest;
      assert s[1..] == gap[1..] + [pairs[0].0, pairs[0].1] + rest;
    }
  }

  lemma WithoutPair(s: string, pairs: seq<(char, char)>, gaps: seq<string>)
    requires Spells(s, pairs, gaps) && s != [] && gaps[0] == []
    ensures |s| >= 2 && pairs != [] && HexDigit(s[0]) && HexDigit(s[1]) && Spells(s[2..], pairs[1..], gaps[1..])
  {
    hide HexDigit, WhiteSpace;
    var rest := Spell(pairs[1..], gaps[1..]);
    assert s == [] + [pairs[0].0, pairs[0].1] + rest;
    assert s[2..] == rest && pairs[0] in pairs;
  }

  /** A text of hex digits alone is read as half as many bytes, if it has an even number of them. */
  lemma {:induction false} DigitsOnly(s: string)
    requires forall c :: c in s ==> HexDigit(c)
    ensures HexBytes(s) == if |s| % 2 == 0 then Some(|s| / 2) else None
  {
    hide HexDigit, WhiteSpace, IsHex, IsSpace;
    if s != [] { Classes(s[0]); }
    if |s| >= 2 {
      Classes(s[1]);
      assert forall c :: c in s[2..] ==> c in s;
      DigitsOnly(s[2..]);
    }
  }

  /** Any other character is refused, wherever it stands. */
  lemma {:induction false} OtherCharacter(s: string)
    requires exists c :: c in s && !HexDigit(c) && !WhiteSpace(c)
    ensures HexBytes(s).None?
  {
    hide HexDigit, WhiteSpace, IsHex, IsSpace;
    var c :| c in s && !HexDigit(c) && !WhiteSpace(c);
    Classes(s[0]);
    if IsSpace(s[0]) {
      assert c in s[1..];
      OtherCharacter(s[1..]);
    } else if |s| >= 2 && IsHex(s[0]) && IsHex(s[1]) {
      Classes(s[1]);
      assert c in s[2..];
      OtherCharacter(s[2..]);
    }
  }

  /** White space after the first digit of a pair is refused. */
  lemma {:induction false} SplitPair(before: string, digit: char, space: char, after: string)
    requires HexBytes(before).Some? && HexDigit(digit) && WhiteSpace(space)
    ensures HexBytes(before + [digit, space] + after).None?
    decreases |before|
  {
    hide HexDigit, WhiteSpace, IsHex, IsSpace;
    var s := before + [digit, space] + after;
    Classes(digit);
    Classes(space);
    if before != [] {
      var n := if IsSpace(before[0]) then 1 else 2;
      assert s[n..] == before[n..] + [digit, space] + after;
      SplitPair(before[n..], digit, space, after);
    }
  }

  /** The two digits of each byte, as `hex()` writes them. */
  function Pairs(bytes: Bytes): (r: seq<(char, char)>)
    ensures |r| == |bytes|
  {
    if bytes == [] then []
    else [("0123456789abcdef"[bytes[0] / 16], "0123456789abcdef"[bytes[0] % 16])] + Pairs(bytes[1..])
  }

  lemma {:induction false} PairsAreHex(bytes: Bytes)
    ensures forall p :: p in Pairs(bytes) ==> HexDigit(p.0) && HexDigit(p.1)
  {
    hide HexDigit;
    if bytes != [] {
      DigitIsHex(bytes[0] as nat / 16);
      DigitIsHex(bytes[0] as nat % 16);
      PairsAreHex(bytes[1..]);
    }
  }

  /** What `hex()` writes for some bytes is read as that many, also with white space between the pairs. */
  lemma HexIsRead(bytes: Bytes, gaps: seq<string>)
    requires |gaps| == |bytes| + 1 && forall g, c :: g in gaps && c in g ==> WhiteSpace(c)
    ensures HexBytes(Spell(Pairs(bytes), gaps)) == Some(|bytes|)
  {
    hide HexDigit, WhiteSpace, HexBytes, Pairs, Spell;
    PairsAreHex(bytes);
    SpelledIsRead(Spell(Pairs(bytes), gaps), Pairs(bytes), gaps);
  }

  lemma DigitIsHex(d: nat)
    requires d < 16
    ensures HexDigit("0123456789abcdef"[d])
  {
    assert "0123456789abcdef"[d] == "0123456789abcdefABCDEF"[d];
  }

  /** Which texts are read as the 32 bytes of a key. */
  lemma KeyText(key: string)
    ensures HexBytes(key) == Some(32) <==> exists pairs, gaps :: |pairs| == 32 && Spells(key, pairs, gaps)
    ensures (forall c :: c in key ==> HexDigit(c)) ==> (HexBytes(key) == Some(32) <==> |key| == 64)
    ensures (exists c :: c in key && !HexDigit(c) && !WhiteSpace(c)) ==> HexBytes(key).None?
  {
    hide HexBytes, HexDigit, WhiteSpace, Spells;
    HexBytesIff(key, 32);
    if forall c :: c in key ==> HexDigit(c) { DigitsOnly(key); }
    if exists c :: c in key && !HexDigit(c) && !WhiteSpace(c) { OtherCharacter(key); }
  }

  function Listed(rules: Rules, model: ModelId): set<PubKey> {
    if model in rules then rules[model] else {}
  }

  predicate IsAllowed(rules: Rules, model: ModelId, key: PubKey) {
    key in Listed(rules, EVERY_MODEL) || key in Listed(rules, model)
  }

  class ACL {
    var rules: Rules

    constructor (rules: Rules)
      ensures this.rules == rules
    {
      this.rules := rules;
    }

    /** Afterwards exactly the named key gained exactly the named model, or every model. */
    method Allow(model: ModelId, key: PubKey) returns (ok: bool)
      modifies this
      ensures ok <==> exists pairs, gaps :: |pairs| == 32 && Spells(key, pairs, gaps)
      ensures (forall c :: c in key ==> HexDigit(c)) ==> (ok <==> |key| == 64)
      ensures (exists c :: c in key && !HexDigit(c) && !WhiteSpace(c)) ==> !ok
      ensures forall m, k :: IsAllowed(rules, m, k) <==>
        IsAllowed(old(rules), m, k) || (ok && k == key && (m == model || model == "*"))
    {
      hide HexBytes, HexDigit, WhiteSpace, Spells;
      KeyText(key);
      if HexBytes(key) != Some(32) { return false; }
      rules := rules[model := Listed(rules, model) + {key}];
      return true;
    }

    /** Revoking one model leaves a key that the wildcard still lists. */
    method Revoke(model: ModelId, key: PubKey)
      modifies this
      ensures forall m, k :: IsAllowed(rules, m, k) <==>
        || ("*" in old(rules) && k in old(rules)["*"] && !(k == key && model == "*"))
        || (m in old(rules) && k in old(rules)[m] && !(k == key && m == model))
    {
      rules := rules[model := Listed(rules, model) - {key}];
    }
  }
}

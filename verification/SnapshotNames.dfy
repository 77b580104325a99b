/** Names and places in the snapshot vault of src/decillion/vault.py: which directory and which
    lock a model revision has, and that no two share either. */
module SnapshotNames {
  import opened Outcomes

  const MAX_COMPONENT: nat := 128

  predicate AlphaNumeric(c: char) { 'A' <= c <= 'Z' || 'a' <= c <= 'z' || '0' <= c <= '9' }

  /** The pattern of `_COMPONENT`. */
  predicate SafeComponent(s: string) {
    && 0 < |s| <= MAX_COMPONENT && AlphaNumeric(s[0])
    && forall i :: 0 <= i < |s| ==> AlphaNumeric(s[i]) || s[i] in "._-"
  }

  /** `s.split(c)` */
  function Split(s: string, c: char): (parts: seq<string>)
    ensures |parts| >= 1
  {
    if s == [] then [""]
    else
      var rest := Split(s[1..], c);
      if s[0] == c then [""] + rest else [[s[0]] + rest[0]] + rest[1..]
  }

  function Join(parts: seq<string>, c: char): string
    requires |parts| >= 1
  {
    if |parts| == 1 then parts[0] else parts[0] + [c] + Join(parts[1..], c)
  }

  type Path = seq<string>

  /** `snapshot_path`, below the vault's root. */
  function SnapshotPath(model: string, revision: string): Option<Path> {
    var parts := Split(model, '/');
    if |parts| != 2 then None
    else if !SafeComponent(parts[0]) || !SafeComponent(parts[1]) || !SafeComponent(revision) then None
    else Some(["models", parts[0], parts[1], revision])
  }

  /** The text whose SHA-256 names the lock of `download_slot`. */
  function LockText(model: string, revision: string): string { model + "@" + revision }

  lemma {:induction false} SplitJoins(s: string, c: char)
    ensures Join(Split(s, c), c) == s
    ensures forall i :: 0 <= i < |Split(s, c)| ==> c !in Split(s, c)[i]
  {
    if s != [] {
      SplitJoins(s[1..], c);
      var rest, parts := Split(s[1..], c), Split(s, c);
      if s[0] == c {
        assert parts[1..] == rest;
        assert Join(parts, c) == [] + [c] + Join(rest, c) == [c] + s[1..] == s;
      } else {
        assert parts[1..] == rest[1..];
        assert parts[0] == [s[0]] + rest[0];
        if |rest| > 1 {
          assert Join(parts, c) == parts[0] + [c] + Join(rest[1..], c) == [s[0]] + (rest[0] + [c] + Join(rest[1..], c));
        }
        assert s == [s[0]] + s[1..];
      }
    }
  }

  // ---------------------------------------------------------------- which names have a path

  /** A letter or a digit of ASCII, by its code. */
  predicate LetterOrDigit(c: char) {
    48 <= c as int <= 57 || 65 <= c as int <= 90 || 97 <= c as int <= 122
  }

  /** 1 to 128 letters, digits, dots, underlines and hyphens, the first a letter or a digit. */
  ghost predicate LegalName(s: string) {
    && 1 <= |s| <= 128 && LetterOrDigit(s[0])
    && forall c :: c in s ==> LetterOrDigit(c) || c == '.' || c == '_' || c == '-'
  }

  lemma SafeIsLegal(s: string)
    ensures SafeComponent(s) <==> LegalName(s)
  {
    if SafeComponent(s) {
      forall c | c in s ensures LetterOrDigit(c) || c == '.' || c == '_' || c == '-' {
        var i :| 0 <= i < |s| && s[i] == c;
      }
    }
    if LegalName(s) {
      forall i | 0 <= i < |s| ensures AlphaNumeric(s[i]) || s[i] in "._-" {
        assert s[i] in s;
        assert "._-"[0] == '.' && "._-"[1] == '_' && "._-"[2] == '-';
      }
    }
  }

  lemma {:induction false} SplitPlain(s: string, c: char)
    requires c !in s
    ensures Split(s, c) == [s]
  {
    if s != [] {
      SplitPlain(s[1..], c);
      assert s == [s[0]] + s[1..];
    }
  }

  lemma {:induction false} SplitAtFirst(a: string, c: char, b: string)
    requires c !in a
    ensures Split(a + [c] + b, c) == [a] + Split(b, c)
  {
    var s := a + [c] + b;
    if a == [] {
      assert s[1..] == b;
    } else {
      SplitAtFirst(a[1..], c, b);
      assert s[1..] == a[1..] + [c] + b && s[0] == a[0];
      assert a == [a[0]] + a[1..];
    }
  }

  ghost predicate Spelled(model: string, a: string, b: string, revision: string) {
    model == a + "/" + b && LegalName(a) && LegalName(b) && LegalName(revision)
  }

  /** A revision has a path if and only if its model is two legal names with a slash between them and it is a legal
      name itself; the path is those names. */
  lemma PathIff(model: string, revision: string)
    ensures SnapshotPath(model, revision).Some? <==> exists a, b :: Spelled(model, a, b, revision)
    ensures forall a, b :: Spelled(model, a, b, revision) ==>
      SnapshotPath(model, revision) == Some(["models", a, b, revision])
  {
    hide SafeComponent, Split, LegalName;
    SafeIsLegal(revision);
    if SnapshotPath(model, revision).Some? {
      var parts := Split(model, '/');
      SafeIsLegal(parts[0]);
      SafeIsLegal(parts[1]);
      SplitJoins(model, '/');
      assert parts[1..] == [parts[1]] && Join(parts, '/') == parts[0] + "/" + parts[1];
      assert Spelled(model, parts[0], parts[1], revision);
    }
    forall a, b | Spelled(model, a, b, revision)
      ensures SnapshotPath(model, revision) == Some(["models", a, b, revision])
    {
      NoSlash(a);
      NoSlash(b);
      SplitAtFirst(a, '/', b);
      SplitPlain(b, '/');
      SafeIsLegal(a);
      SafeIsLegal(b);
    }
  }

  lemma NoSlash(s: string)
    requires LegalName(s)
    ensures '/' !in s && s != "" && s != "." && s != ".."
  {
  }

  /** No path leads out of the directory of the models: no component is empty, a dot, two dots, or holds a slash. */
  lemma PathStaysBelow(model: string, revision: string)
    requires SnapshotPath(model, revision).Some?
    ensures var path := SnapshotPath(model, revision).value;
      && |path| == 4 && path[0] == "models"
      && forall i :: 0 <= i < 4 ==> path[i] != "" && path[i] != "." && path[i] != ".." && '/' !in path[i]
  {
    hide LegalName;
    PathIff(model, revision);
    var a, b :| Spelled(model, a, b, revision);
    NoSlash(a);
    NoSlash(b);
    NoSlash(revision);
  }

  /** Two revisions with valid names share a directory only if they are the same revision. */
  lemma PathNamesRevision(model1: string, revision1: string, model2: string, revision2: string)
    requires SnapshotPath(model1, revision1).Some?
    requires SnapshotPath(model1, revision1) == SnapshotPath(model2, revision2)
    ensures model1 == model2 && revision1 == revision2
  {
    var p, q := SnapshotPath(model1, revision1).value, SnapshotPath(model2, revision2).value;
    assert p[1] == q[1] && p[2] == q[2] && p[3] == q[3];
    var s1, s2 := Split(model1, '/'), Split(model2, '/');
    assert s1 == [p[1], p[2]] && s2 == [q[1], q[2]];
    SplitJoins(model1, '/');
    SplitJoins(model2, '/');
  }

  lemma NoAt(model: string, revision: string)
    requires SnapshotPath(model, revision).Some?
    ensures forall n :: 0 <= n < |model| ==> LockText(model, revision)[n] != '@'
  {
    var parts := Split(model, '/');
    SplitJoins(model, '/');
    assert parts == [parts[0], parts[1]];
    assert Join(parts, '/') == parts[0] + ['/'] + parts[1];
  }

  /** Two revisions with valid names have one lock text only if they are the same revision. */
  lemma LockNamesRevision(model1: string, revision1: string, model2: string, revision2: string)
    requires SnapshotPath(model1, revision1).Some? && SnapshotPath(model2, revision2).Some?
    requires LockText(model1, revision1) == LockText(model2, revision2)
    ensures model1 == model2 && revision1 == revision2
  {
    NoAt(model1, revision1);
    NoAt(model2, revision2);
    var t1, t2 := LockText(model1, revision1), LockText(model2, revision2);
    assert t1[|model1|] == '@' && t2[|model2|] == '@';
    assert |model1| == |model2|;
    assert t1[..|model1|] == model1 && t2[..|model2|] == model2;
    assert t1[|model1| + 1..] == revision1 && t2[|model2| + 1..] == revision2;
  }
}

/** Which models `pull_model` of src/telepath/node.py writes to one file. */
module PullTargets {
  import opened Protocol
  import opened TelepathNodes

  predicate HasPair(s: string) { exists i :: 0 <= i && i + 1 < |s| && s[i] == '_' && s[i + 1] == '_' }

  function Letter(c: char): string { if c == '/' then "__" else [c] }

  lemma FlattenedHead(c: char, rest: string)
    ensures Flattened([c] + rest) == Letter(c) + Flattened(rest)
  {
    assert ([c] + rest)[1..] == rest;
  }

  lemma Associates(a: string, b: string, c: string)
    ensures a + (b + c) == (a + b) + c
  {
  }

  lemma {:induction false} FlattenedJoin(a: string, b: string)
    ensures Flattened(a + b) == Flattened(a) + Flattened(b)
  {
    if a == [] {
      assert a + b == b && Flattened([]) == [];
    } else {
      hide Flattened, Letter;
      var head, rest := [a[0]], a[1..];
      FlattenedJoin(rest, b);
      FlattenedHead(a[0], rest);
      FlattenedHead(a[0], rest + b);
      Associates(head, rest, b);
      Associates(Letter(a[0]), Flattened(rest), Flattened(b));
      assert a == head + rest;
    }
  }

  lemma {:induction false} FlattenedPlain(m: string)
    requires '/' !in m
    ensures Flattened(m) == m
  {
    if m != [] {
      FlattenedPlain(m[1..]);
      assert m == [m[0]] + m[1..];
    }
  }

  lemma FlattenedSymbols()
    ensures Flattened("/") == "__" && Flattened("__") == "__"
  {
    FlattenedPlain("__");
    assert "/"[1..] == "" && "__" + "" == "__";
  }

  /** A model without a slash has its files in the directory of its name. */
  lemma PlainTarget(destination: string, model: ModelId)
    requires '/' !in model && model != "" && model != "."
    ensures TargetFile(destination, model) == [destination, model, "model.bin"]
    ensures PartFile(destination, model) == [destination, model, "model.part"]
  {
    FlattenedPlain(model);
  }

  /** A slash is written as two underlines. */
  lemma SlashTarget(destination: string, a: string, b: string)
    ensures TargetFile(destination, a + "/" + b) == TargetFile(destination, a + "__" + b)
  {
    FlattenedSymbols();
    Flattened3(a, "/", b);
    Flattened3(a, "__", b);
    assert a + "/" + b == a + ("/" + b) && a + "__" + b == a + ("__" + b);
  }

  predicate SameTarget(destination: string, a: ModelId, b: ModelId) {
    TargetFile(destination, a) == TargetFile(destination, b)
  }

  /** The directory itself. */
  predicate NoComponent(m: ModelId) { m == "" || m == "." }

  /** Another id shares the target of a model if and only if the model's id contains a slash or two underlines in a
      row, which are written alike, or is empty or a dot, which name no directory of their own. */
  lemma TargetsClashIff(destination: string, model: ModelId)
    ensures (exists other :: other != model && SameTarget(destination, other, model))
       <==> ('/' in model || HasPair(model) || NoComponent(model))
  {
    SameTargetIff(destination);
    if NoComponent(model) {
      FlattenedPlain(".");
      assert SameTarget(destination, if model == "" then "." else "", model);
    } else if '/' in model || HasPair(model) {
      var other := Alias(model);
      assert SameTarget(destination, other, model);
    } else {
      FlattenedPlain(model);
      forall other | SameTarget(destination, other, model) ensures other == model {
        OnlyAlias(other, model);
      }
    }
  }

  /** One target: the same directory name, or none. */
  lemma SameTargetIff(destination: string)
    ensures forall a, b :: SameTarget(destination, a, b) <==>
      Flattened(a) == Flattened(b) || (NoComponent(Flattened(a)) && NoComponent(Flattened(b)))
  {
    forall a, b
      ensures SameTarget(destination, a, b) <==>
        Flattened(a) == Flattened(b) || (NoComponent(Flattened(a)) && NoComponent(Flattened(b)))
    {
      var ta, tb := TargetFile(destination, a), TargetFile(destination, b);
      if !NoComponent(Flattened(a)) && !NoComponent(Flattened(b)) {
        assert ta[1] == Flattened(a) && tb[1] == Flattened(b);
      } else if NoComponent(Flattened(a)) != NoComponent(Flattened(b)) {
        assert |ta| != |tb|;
      }
    }
  }

  /** The other id: with the slash written as two underlines, or two underlines as a slash. */
  lemma Alias(model: ModelId) returns (other: ModelId)
    requires '/' in model || HasPair(model)
    ensures other != model && Flattened(other) == Flattened(model)
  {
    FlattenedSymbols();
    if '/' in model {
      var i :| 0 <= i < |model| && model[i] == '/';
      other := Around(model, i, 1, "__");
    } else {
      var i :| 0 <= i && i + 1 < |model| && model[i] == '_' && model[i + 1] == '_';
      assert model[i..i + 2] == "__";
      other := Around(model, i, 2, "/");
    }
  }

  lemma Flattened3(a: string, b: string, c: string)
    ensures Flattened(a + (b + c))
         == Flattened(a) + (Flattened(b) + Flattened(c))
  {
    FlattenedJoin(a, b + c);
    FlattenedJoin(b, c);
  }

  lemma Around(model: ModelId, i: nat, n: nat, s: string) returns (other: ModelId)
    requires i + n <= |model| && |s| != n && Flattened(model[i..i + n]) == Flattened(s)
    ensures other != model && Flattened(other) == Flattened(model)
  {
    hide Flattened;
    other := model[..i] + (s + model[i + n..]);
    assert |other| == |model| - n + |s|;
    Flattened3(model[..i], s, model[i + n..]);
    Flattened3(model[..i], model[i..i + n], model[i + n..]);
    assert model == model[..i] + (model[i..i + n] + model[i + n..]);
  }

  lemma SlashMakesPair(s: string)
    ensures HasPair(Flattened(s)) || '/' !in s
  {
    if i: nat :| i < |s| && s[i] == '/' {
      FlattenedSymbols();
      assert s == s[..i] + (s[i..i + 1] + s[i + 1..]) && s[i..i + 1] == "/";
      FlattenedJoin(s[..i], s[i..i + 1] + s[i + 1..]);
      FlattenedJoin(s[i..i + 1], s[i + 1..]);
      var at, flat := |Flattened(s[..i])|, Flattened(s);
      assert flat[at] == '_' && flat[at + 1] == '_';
    }
  }

  lemma OnlyAlias(other: ModelId, model: ModelId)
    requires '/' !in model && !HasPair(model) && Flattened(other) == Flattened(model)
    ensures other == model
  {
    FlattenedPlain(model);
    SlashMakesPair(other);
    FlattenedPlain(other);
  }
}

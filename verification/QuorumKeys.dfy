/**
 When the keys of Redis may be split into one table per template and consumer: the
 templates never collide, and the exact condition under which two consumer names do.
 */
module QuorumKeys {
  import opened QuorumModel

  const MARK := ":finding:"

  /** One table per template loses nothing: count and status keys never meet, and each determines its unique key. */
  lemma KeyTemplates(n1: string, n2: string, name: string, k1: string, k2: string)
    ensures CountKey(n1, k1) != StatusKey(n2, k2)
    ensures CountKey(name, k1) == CountKey(name, k2) ==> k1 == k2
    ensures StatusKey(name, k1) == StatusKey(name, k2) ==> k1 == k2
  {
    var p := |name + MARK|;
    assert CountKey(n1, k1)[|CountKey(n1, k1)| - 1] == 't';
    assert StatusKey(n2, k2)[|StatusKey(n2, k2)| - 1] == 's';
    assert forall k {:trigger CountKey(name, k)} :: CountKey(name, k)[p..p + |k|] == k;
    assert forall k {:trigger StatusKey(name, k)} :: StatusKey(name, k)[p..p + |k|] == k;
    assert |CountKey(name, k1)| == p + |k1| + 6 && |StatusKey(name, k1)| == p + |k1| + 7;
  }

  function Stem(name: string, k: string): string {
    name + MARK + k
  }

  lemma KeysAreStems(n1: string, n2: string, k1: string, k2: string)
    ensures CountKey(n1, k1) == CountKey(n2, k2) <==> Stem(n1, k1) == Stem(n2, k2)
    ensures StatusKey(n1, k1) == StatusKey(n2, k2) <==> Stem(n1, k1) == Stem(n2, k2)
  {
    assert forall n, k {:trigger CountKey(n, k)} ::
        CountKey(n, k) == Stem(n, k) + ":count" && CountKey(n, k)[..|CountKey(n, k)| - 6] == Stem(n, k);
    assert forall n, k {:trigger StatusKey(n, k)} ::
        StatusKey(n, k) == Stem(n, k) + ":status" && StatusKey(n, k)[..|StatusKey(n, k)| - 7] == Stem(n, k);
  }

  /** The second name goes on from the first as a key does. */
  predicate Continues(n1: string, n2: string) {
    n1 + MARK <= n2 + ":"
  }

  lemma SharedStemContinues(n1: string, n2: string, k1: string, k2: string)
    requires Stem(n1, k1) == Stem(n2, k2) && |n1| < |n2|
    ensures Continues(n1, n2)
  {
    var s, d := Stem(n1, k1), |n2| - |n1|;
    assert forall j | 0 <= j < |MARK| :: s[|n1| + j] == MARK[j];
    assert s[|n1| + d] == MARK[0];
    assert d < |MARK| ==> MARK[d] == ':';
    assert MARK[1] != ':' && MARK[2] != ':' && MARK[3] != ':' && MARK[4] != ':';
    assert MARK[5] != ':' && MARK[6] != ':' && MARK[7] != ':';
    assert n1 + MARK == s[..|n1| + 9];
    assert n2 + ":" == s[..|n2| + 1];
  }

  /**
   Two consumers have a key in common, for some findings, if and only if their names
   are equal or one continues the other; names without a colon never do.
   */
  lemma NamesShareKeys(n1: string, n2: string)
    ensures (exists k1, k2 :: CountKey(n1, k1) == CountKey(n2, k2)) <==>
              n1 == n2 || Continues(n1, n2) || Continues(n2, n1)
    ensures (exists k1, k2 :: StatusKey(n1, k1) == StatusKey(n2, k2)) <==>
              n1 == n2 || Continues(n1, n2) || Continues(n2, n1)
    ensures ':' !in n2 ==> !Continues(n1, n2)
  {
    hide CountKey, StatusKey, Continues, Stem;
    forall k1, k2 ensures Stem(n1, k1) == Stem(n2, k2) ==> n1 == n2 || Continues(n1, n2) || Continues(n2, n1) {
      OnlyTheseShare(n1, n2, k1, k2);
    }
    forall k1, k2
      ensures CountKey(n1, k1) == CountKey(n2, k2) <==> Stem(n1, k1) == Stem(n2, k2)
      ensures StatusKey(n1, k1) == StatusKey(n2, k2) <==> Stem(n1, k1) == Stem(n2, k2)
    {
      KeysAreStems(n1, n2, k1, k2);
    }
    if n1 == n2 {
      assert Stem(n1, "") == Stem(n2, "");
      assert CountKey(n1, "") == CountKey(n2, "") && StatusKey(n1, "") == StatusKey(n2, "");
    } else if Continues(n1, n2) {
      var k := ContinuingShares(n1, n2);
      assert CountKey(n1, k) == CountKey(n2, "") && StatusKey(n1, k) == StatusKey(n2, "");
    } else if Continues(n2, n1) {
      var k := ContinuingShares(n2, n1);
      assert CountKey(n1, "") == CountKey(n2, k) && StatusKey(n1, "") == StatusKey(n2, k);
    }
    if ':' !in n2 {
      PlainNamesDoNot(n1, n2);
    }
  }

  lemma OnlyTheseShare(n1: string, n2: string, k1: string, k2: string)
    ensures Stem(n1, k1) == Stem(n2, k2) ==> n1 == n2 || Continues(n1, n2) || Continues(n2, n1)
  {
    if Stem(n1, k1) == Stem(n2, k2) {
      if |n1| < |n2| {
        SharedStemContinues(n1, n2, k1, k2);
      } else if |n2| < |n1| {
        SharedStemContinues(n2, n1, k2, k1);
      } else {
        assert n1 == Stem(n1, k1)[..|n1|] == n2;
      }
    }
  }

  lemma ContinuingShares(n1: string, n2: string) returns (k: string)
    requires Continues(n1, n2)
    ensures Stem(n1, k) == Stem(n2, "")
  {
    var s := Stem(n2, "");
    assert n2 + ":" <= s;
    assert n1 + MARK <= s;
    k := s[|n1 + MARK|..];
  }

  lemma PlainNamesDoNot(n1: string, n2: string)
    requires ':' !in n2
    ensures !Continues(n1, n2)
  {
    assert (n1 + MARK)[|n1|] == ':';
    assert forall j | 0 <= j < |n2| :: (n2 + ":")[j] == n2[j];
  }

  // ----- the cool-down key -----

  lemma SameEnds(a: string, x: string, y: string, b: string)
    ensures a + x + b == a + y + b <==> x == y
  {
    if a + x + b == a + y + b {
      assert |x| == |y|;
      assert x == (a + x + b)[|a|..|a| + |x|] && y == (a + y + b)[|a|..|a| + |y|];
    }
  }

  /** Each part of a finding tells cool-down keys apart: the bot, the alert, the content and the consumer. */
  lemma CoolDownTellsApart(cfg: Config, f: Finding, bot: string, alert: string, description: string, name: string)
    ensures CoolDownKey(cfg, f) == CoolDownKey(cfg, f.(description := description)) <==> f.description == description
    ensures CoolDownKey(cfg, f) == CoolDownKey(cfg, f.(botName := bot)) <==> f.botName == bot
    ensures CoolDownKey(cfg, f) == CoolDownKey(cfg, f.(alertId := alert)) <==> f.alertId == alert
    ensures CoolDownKey(cfg, f) == CoolDownKey(cfg.(name := name), f) <==> cfg.name == name
  {
    var b, l, d, n := f.botName, f.alertId, f.description, cfg.name;
    SameEnds("", b, bot, "_" + l + "_" + d + "_" + n);
    assert forall x {:trigger x + "_"} :: x + "_" + l + "_" + d + "_" + n == "" + x + ("_" + l + "_" + d + "_" + n);
    SameEnds(b + "_", l, alert, "_" + d + "_" + n);
    assert forall x {:trigger b + "_" + x} :: b + "_" + x + "_" + d + "_" + n == b + "_" + x + ("_" + d + "_" + n);
    SameEnds(b + "_" + l + "_", d, description, "_" + n);
    assert forall x {:trigger b + "_" + l + "_" + x} ::
        b + "_" + l + "_" + x + "_" + n == b + "_" + l + "_" + x + ("_" + n);
    SameEnds(b + "_" + l + "_" + d + "_", n, name, "");
    assert forall x {:trigger b + "_" + l + "_" + d + "_" + x} ::
        b + "_" + l + "_" + d + "_" + x == b + "_" + l + "_" + d + "_" + x + "";
  }

  /** Neither the unique key nor the severity enters it. */
  lemma CoolDownIgnores(cfg: Config, f: Finding, key: string, severity: string)
    ensures CoolDownKey(cfg, f.(uniqueKey := key, severity := severity)) == CoolDownKey(cfg, f)
  {
  }

  lemma FirstPart(a: string, b: string, s: string, t: string)
    requires '_' !in a && '_' !in b && a + "_" + s == b + "_" + t
    ensures a == b && s == t
  {
    var w := a + "_" + s;
    assert w[|a|] == '_' && w[|b|] == '_';
    assert forall j | 0 <= j < |a| :: w[j] == a[j];
    assert forall j | 0 <= j < |b| :: w[j] == b[j];
    assert a == w[..|a|] && b == w[..|b|];
    assert s == w[|a| + 1..] && t == w[|b| + 1..];
  }

  /**
   Findings of one consumer whose bots and alerts have no "_" share a cool-down if
   and only if bot, alert and content are the same.
   */
  lemma CoolDownIsContent(cfg: Config, f: Finding, g: Finding)
    requires '_' !in f.botName && '_' !in g.botName && '_' !in f.alertId && '_' !in g.alertId
    ensures CoolDownKey(cfg, f) == CoolDownKey(cfg, g) <==>
              f.botName == g.botName && f.alertId == g.alertId && f.description == g.description
  {
    if CoolDownKey(cfg, f) == CoolDownKey(cfg, g) {
      var s := f.alertId + "_" + (f.description + "_" + cfg.name);
      var t := g.alertId + "_" + (g.description + "_" + cfg.name);
      assert CoolDownKey(cfg, f) == f.botName + "_" + s && CoolDownKey(cfg, g) == g.botName + "_" + t;
      FirstPart(f.botName, g.botName, s, t);
      FirstPart(f.alertId, g.alertId, f.description + "_" + cfg.name, g.description + "_" + cfg.name);
      SameEnds("", f.description, g.description, "_" + cfg.name);
      assert forall x {:trigger x + "_"} :: x + "_" + cfg.name == "" + x + ("_" + cfg.name);
    }
  }

  /** With a "_" in a name they may share one by accident. */
  lemma UnderscoresConfuse(cfg: Config, f: Finding)
    ensures CoolDownKey(cfg, f.(botName := "a_b", alertId := "c"))
            == CoolDownKey(cfg, f.(botName := "a", alertId := "b_c"))
  {
    assert "a_b" + "_" + "c" == "a" + "_" + "b_c";
  }
}

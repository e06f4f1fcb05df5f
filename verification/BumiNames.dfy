/** Object names: listing by name prefix finds exactly the objects of a folder of a
    run, provided organization ids contain no slash. */
module BumiNames {
  import opened BumiTypes

  predicate SlashFree(s: string) { '/' !in s }

  lemma {:induction false} DecimalIsSlashFree(n: int)
    ensures SlashFree(Decimal(n)) && Decimal(n) != []
    ensures n >= 0 ==> '-' !in Decimal(n)
    decreases if n < 0 then 1 - n else n
  {
    if n < 0 { DecimalIsSlashFree(-n); } else if n >= 10 { DecimalIsSlashFree(n / 10); }
  }

  lemma DigitInjective(a: int, b: int)
    requires 0 <= a < 10 && 0 <= b < 10 && Digit(a) == Digit(b)
    ensures a == b
  {
  }

  lemma SnocInjective(x: string, c: char, y: string, d: char)
    requires x + [c] == y + [d]
    ensures x == y && c == d
  {
    assert x == (x + [c])[..|x|] && y == (y + [d])[..|y|];
    assert c == (x + [c])[|x|];
  }

  /** The three shapes of a decimal. */
  lemma DecimalShape(n: int)
    ensures n < 0 <==> Decimal(n)[..1] == "-"
    ensures n < 0 ==> Decimal(n) == "-" + Decimal(-n)
    ensures 0 <= n < 10 <==> |Decimal(n)| == 1
    ensures 0 <= n < 10 ==> Decimal(n) == [Digit(n)]
    ensures n >= 10 ==> Decimal(n) == Decimal(n / 10) + [Digit(n % 10)]
  {
    hide Digit;
    DecimalIsSlashFree(n);
    DecimalIsSlashFree(n / 10);
    DecimalIsSlashFree(-n);
    if n >= 0 { assert Decimal(n)[..1][0] in Decimal(n); }
  }

  lemma {:induction false} DecimalInjective(a: int, b: int)
    requires Decimal(a) == Decimal(b)
    ensures a == b
    decreases if a < 0 then 1 - a else a
  {
    hide Decimal, Digit;
    DecimalShape(a);
    DecimalShape(b);
    if a < 0 {
      assert Decimal(a)[1..] == Decimal(-a) && Decimal(b)[1..] == Decimal(-b);
      DecimalInjective(-a, -b);
    } else if a < 10 {
      assert Decimal(a)[0] == Decimal(b)[0];
      DigitInjective(a, b);
    } else {
      SnocInjective(Decimal(a / 10), Digit(a % 10), Decimal(b / 10), Digit(b % 10));
      DecimalInjective(a / 10, b / 10);
      DigitInjective(a % 10, b % 10);
    }
  }

  /** The part before the first slash of a name decides whether it has a prefix. */
  lemma PrefixUpToSlash(a: string, x: string, b: string, y: string)
    requires SlashFree(a) && SlashFree(b)
    ensures a + "/" + x <= b + "/" + y <==> a == b && x <= y
  {
    var p, q := a + "/" + x, b + "/" + y;
    if p <= q {
      assert p[|a|] == '/' == q[|a|] && q[|b|] == '/';
      assert forall i :: 0 <= i < |b| ==> q[i] == b[i] && b[i] != '/';
      assert forall i :: 0 <= i < |a| ==> p[i] == a[i] && a[i] != '/';
      assert |a| == |b|;
      assert a == p[..|a|] == q[..|a|] == b;
      assert x == p[|a| + 1..] && y == q[|b| + 1..];
    }
    if a == b && x <= y {
      assert q[..|p|] == a + "/" + y[..|x|];
    }
  }

  lemma FolderNameDecides(f: Folder, g: Folder, rest: string)
    ensures FolderName(f) + "/" <= FolderName(g) + "/" + rest <==> f == g
  {
    PrefixUpToSlash(FolderName(f), "", FolderName(g), rest);
    assert FolderName(f) + "/" + "" == FolderName(f) + "/";
  }

  lemma RunPrefixSelects(createdAt: int, wanted: string, createdAt': int, rest: string)
    ensures Decimal(createdAt) + "/" + wanted <= Decimal(createdAt') + "/" + rest
            <==> createdAt == createdAt' && wanted <= rest
  {
    DecimalIsSlashFree(createdAt);
    DecimalIsSlashFree(createdAt');
    PrefixUpToSlash(Decimal(createdAt), wanted, Decimal(createdAt'), rest);
    if Decimal(createdAt) == Decimal(createdAt') { DecimalInjective(createdAt, createdAt'); }
  }

  /** Listing by prefix text is the structural selection the model uses. */
  lemma PrefixSelects(k: Key, p: Prefix)
    requires SlashFree(k.org) && SlashFree(p.org)
    ensures PrefixText(p) <= Path(k) <==> Under(k, p)
  {
    hide Decimal, FolderName;
    var inFolder := k.name + ".json";
    var inRun := FolderName(k.folder) + "/" + inFolder;
    var inOrg := Decimal(k.createdAt) + "/" + inRun;
    assert Path(k) == k.org + "/" + inOrg;
    match p {
      case OfOrg(org) =>
        PrefixUpToSlash(org, "", k.org, inOrg);
        assert org + "/" + "" == PrefixText(p);
      case OfFolder(org, createdAt, f) =>
        var wanted := FolderName(f) + "/";
        assert PrefixText(p) == org + "/" + (Decimal(createdAt) + "/" + wanted);
        PrefixUpToSlash(org, Decimal(createdAt) + "/" + wanted, k.org, inOrg);
        RunPrefixSelects(createdAt, wanted, k.createdAt, inRun);
        FolderNameDecides(f, k.folder, inFolder);
    }
  }
}

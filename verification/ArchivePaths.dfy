/**
 * The names that the archiver uses inside its write directory.  A name is kept as the
 * structure the archiver builds it from; Render gives the text, and RenderInjective is
 * what justifies keeping the structure: the four forms never meet.
 */
module ArchivePaths {
  import opened Strings
  import Decimal

  datatype Kind = Meta | Data

  datatype Path =
    | Final(kind: Kind, height: int)
    | Partial(kind: Kind, height: int)
    | Foreign(name: string)   // any other name: one that Render gives for no height

  const PARTIAL_SUFFIX := ".partial"

  function Suffix(kind: Kind): (s: string)
    ensures |s| == 5
  {
    match kind case Meta => "-meta" case Data => "-data"
  }

  function Stem(prefix: string): string {
    prefix + "block-"
  }

  function Render(prefix: string, p: Path): string {
    match p
    case Final(kind, h) => Stem(prefix) + Decimal.Print(h) + Suffix(kind)
    case Partial(kind, h) => Stem(prefix) + Decimal.Print(h) + Suffix(kind) + PARTIAL_SUFFIX
    case Foreign(name) => name
  }

  // The start-up sweep's glob pattern, `{prefix}block-*.partial`, when neither the prefix
  // nor the write directory holds pattern characters.
  predicate Sweepable(prefix: string, p: Path) {
    var name := Render(prefix, p);
    && |Stem(prefix)| + |PARTIAL_SUFFIX| <= |name|
    && HasPrefix(name, Stem(prefix))
    && HasSuffix(name, PARTIAL_SUFFIX)
  }

  lemma FinalInjective(prefix: string, k: Kind, h: int, k': Kind, h': int)
    requires Render(prefix, Final(k, h)) == Render(prefix, Final(k', h'))
    ensures k == k' && h == h'
  {
    var s := Render(prefix, Final(k, h));
    var a, b := Decimal.Print(h), Decimal.Print(h');
    assert s[|s| - 5..] == Suffix(k) == Suffix(k');
    assert Suffix(k)[1] == Suffix(k')[1];
    assert |a| == |b|;
    assert a == s[|Stem(prefix)|..|s| - 5] == b;
    Decimal.PrintInjective(h, h');
  }

  lemma PartialIsFinalAndSuffix(prefix: string, k: Kind, h: int)
    ensures Render(prefix, Partial(k, h)) == Render(prefix, Final(k, h)) + PARTIAL_SUFFIX
  {
  }

  lemma LastCharacters(prefix: string, k: Kind, h: int)
    ensures var f := Render(prefix, Final(k, h)); |f| > 0 && f[|f| - 1] == 'a'
    ensures var p := Render(prefix, Partial(k, h)); |p| > 0 && p[|p| - 1] == 'l'
  {
    var f := Render(prefix, Final(k, h));
    assert f[|f| - 1] == Suffix(k)[4];
    PartialIsFinalAndSuffix(prefix, k, h);
    var p := Render(prefix, Partial(k, h));
    assert p[|p| - 1] == PARTIAL_SUFFIX[7];
  }

  // Heights, kinds and the partial marker can all be read back from the text: no two of
  // the archiver's own names are the same file.
  lemma RenderInjective(prefix: string, p: Path, q: Path)
    requires !p.Foreign? && !q.Foreign?
    requires Render(prefix, p) == Render(prefix, q)
    ensures p == q
  {
    LastCharacters(prefix, p.kind, p.height);
    LastCharacters(prefix, q.kind, q.height);
    if p.Partial? {
      PartialIsFinalAndSuffix(prefix, p.kind, p.height);
      PartialIsFinalAndSuffix(prefix, q.kind, q.height);
      var s := Render(prefix, p);
      assert s[..|s| - 8] == Render(prefix, Final(p.kind, p.height));
      assert s[..|s| - 8] == Render(prefix, Final(q.kind, q.height));
      FinalInjective(prefix, p.kind, p.height, q.kind, q.height);
    } else {
      FinalInjective(prefix, p.kind, p.height, q.kind, q.height);
    }
  }

  // Whatever the pattern in front, a name that ends in the suffix is no final file.
  lemma SuffixedIsNotFinal(prefix: string, p: Path)
    requires HasSuffix(Render(prefix, p), PARTIAL_SUFFIX)
    ensures !p.Final?
  {
    var name := Render(prefix, p);
    assert name[|name| - 1] == name[|name| - 8..][7] == PARTIAL_SUFFIX[7];
    if p.Final? {
      LastCharacters(prefix, p.kind, p.height);
    }
  }

  // The sweep takes every partial of this archive and no final file.
  lemma SweepTakesPartials(prefix: string, p: Path)
    requires !p.Foreign?
    ensures Sweepable(prefix, p) <==> p.Partial?
  {
    LastCharacters(prefix, p.kind, p.height);
    var name := Render(prefix, p);
    if p.Partial? {
      PartialIsFinalAndSuffix(prefix, p.kind, p.height);
      assert name[|name| - 8..] == PARTIAL_SUFFIX;
      assert name[..|Stem(prefix)|] == Stem(prefix);
    }
  }

  // The four names as documented.
  lemma NamesAsDocumented(prefix: string, h: int)
    ensures Render(prefix, Final(Meta, h)) == prefix + "block-" + Decimal.Print(h) + "-meta"
    ensures Render(prefix, Final(Data, h)) == prefix + "block-" + Decimal.Print(h) + "-data"
    ensures Render(prefix, Partial(Meta, h)) == prefix + "block-" + Decimal.Print(h) + "-meta.partial"
    ensures Render(prefix, Partial(Data, h)) == prefix + "block-" + Decimal.Print(h) + "-data.partial"
  {
    PartialIsFinalAndSuffix(prefix, Meta, h);
    PartialIsFinalAndSuffix(prefix, Data, h);
    assert "-meta" + ".partial" == "-meta.partial";
    assert "-data" + ".partial" == "-data.partial";
    hide Decimal.Print;
  }
}

/** internal/data: the division/district index. */
module Geo {
  import opened Text

  datatype District = District(bn: string, en: string)
  datatype Division = Division(bn: string, en: string, districts: seq<District>)

  function Norm(cm: CaseMap, s: string): string {
    MapChars(cm.lower, Trim(s))
  }

  // ---- the index, one nested loop at a time -----------------------------------

  function Key(dk: string, sk: string): string {
    dk + "|" + sk
  }

  function KeysOfLabel(dk: string, distKeys: seq<string>): set<string> {
    set k | 0 <= k < |distKeys| :: Key(dk, distKeys[k])
  }

  function KeysOfDistrict(divKeys: seq<string>, distKeys: seq<string>): set<string> {
    if divKeys == [] then {}
    else KeysOfDistrict(divKeys[..|divKeys| - 1], distKeys) + KeysOfLabel(divKeys[|divKeys| - 1], distKeys)
  }

  function DivisionKeys(cm: CaseMap, div: Division): seq<string> {
    [Norm(cm, div.bn), Norm(cm, div.en)]
  }

  function DistrictKeys(cm: CaseMap, dist: District): seq<string> {
    [Norm(cm, dist.bn), Norm(cm, dist.en)]
  }

  function KeysOfDistricts(cm: CaseMap, divKeys: seq<string>, districts: seq<District>): set<string> {
    if districts == [] then {}
    else
      KeysOfDistricts(cm, divKeys, districts[..|districts| - 1])
      + KeysOfDistrict(divKeys, DistrictKeys(cm, districts[|districts| - 1]))
  }

  function PairKeys(cm: CaseMap, divisions: seq<Division>): set<string> {
    if divisions == [] then {}
    else
      var div := divisions[|divisions| - 1];
      PairKeys(cm, divisions[..|divisions| - 1]) + KeysOfDistricts(cm, DivisionKeys(cm, div), div.districts)
  }

  /** A Go map[string]bool; a missing key reads as false. */
  class PairIndex {
    var entries: map<string, bool>

    ghost predicate Holds(keys: set<string>)
      reads this
    {
      entries.Keys == keys && forall k :: k in keys ==> entries[k]
    }

    constructor ()
      ensures Holds({})
    {
      entries := map[];
    }

    /** The package initialiser: four nested loops over the tree. */
    method Build(cm: CaseMap, divisions: seq<Division>)
      requires Holds({})
      modifies this
      ensures Holds(PairKeys(cm, divisions))
    {
      for i := 0 to |divisions|
        invariant Holds(PairKeys(cm, divisions[..i]))
      {
        AddDivision(cm, divisions[i]);
        assert divisions[..i + 1][..i] == divisions[..i];
      }
      assert divisions[..|divisions|] == divisions;
    }

    method AddDivision(cm: CaseMap, div: Division)
      requires Holds(entries.Keys)
      modifies this
      ensures Holds(old(entries.Keys) + KeysOfDistricts(cm, DivisionKeys(cm, div), div.districts))
    {
      var divKeys := DivisionKeys(cm, div);
      ghost var before := entries.Keys;
      for j := 0 to |div.districts|
        invariant Holds(before + KeysOfDistricts(cm, divKeys, div.districts[..j]))
      {
        ghost var sofar := KeysOfDistricts(cm, divKeys, div.districts[..j]);
        var distKeys := DistrictKeys(cm, div.districts[j]);
        AddDistrict(divKeys, distKeys);
        assert div.districts[..j + 1][..j] == div.districts[..j];
        assert (before + sofar) + KeysOfDistrict(divKeys, distKeys) == before + (sofar + KeysOfDistrict(divKeys, distKeys));
      }
      assert div.districts[..|div.districts|] == div.districts;
    }

    /** The two inner loops, over the labels of a division and of one district. */
    method AddDistrict(divKeys: seq<string>, distKeys: seq<string>)
      requires Holds(entries.Keys)
      modifies this
      ensures Holds(old(entries.Keys) + KeysOfDistrict(divKeys, distKeys))
    {
      ghost var before := entries.Keys;
      for a := 0 to |divKeys|
        invariant Holds(before + KeysOfDistrict(divKeys[..a], distKeys))
      {
        ghost var sofar := before + KeysOfDistrict(divKeys[..a], distKeys);
        for b := 0 to |distKeys|
          invariant Holds(sofar + KeysOfLabel(divKeys[a], distKeys[..b]))
        {
          entries := entries[Key(divKeys[a], distKeys[b]) := true];
          LabelSnoc(divKeys[a], distKeys, b);
        }
        assert distKeys[..|distKeys|] == distKeys;
        assert divKeys[..a + 1][..a] == divKeys[..a];
      }
      assert divKeys[..|divKeys|] == divKeys;
    }

    /** The index answers as the linear search of the tree it was built from. */
    method IsValidPair(cm: CaseMap, ghost divisions: seq<Division>, division: string, district: string) returns (r: bool)
      requires cm.Valid() && Holds(PairKeys(cm, divisions))
      ensures r <==> Listed(cm, divisions, division, district)
      ensures Barless(divisions) ==> (r <==> Belongs(cm, divisions, division, district))
    {
      var key := Key(Norm(cm, division), Norm(cm, district));
      r := key in entries && entries[key];
      if Barless(divisions) {
        IndexRefinesSearch(cm, divisions, division, district);
      }
    }
  }

  /** The pair's key is in the index of the tree. */
  predicate Listed(cm: CaseMap, divisions: seq<Division>, division: string, district: string) {
    Key(Norm(cm, division), Norm(cm, district)) in PairKeys(cm, divisions)
  }

  lemma LabelSnoc(dk: string, distKeys: seq<string>, b: nat)
    requires b < |distKeys|
    ensures KeysOfLabel(dk, distKeys[..b + 1]) == KeysOfLabel(dk, distKeys[..b]) + {Key(dk, distKeys[b])}
  {
    var small, big := distKeys[..b], distKeys[..b + 1];
    forall x | x in KeysOfLabel(dk, big)
      ensures x in KeysOfLabel(dk, small) + {Key(dk, distKeys[b])}
    {
      var k :| 0 <= k < |big| && x == Key(dk, big[k]);
      assert k < b ==> small[k] == big[k];
    }
    forall x | x in KeysOfLabel(dk, small)
      ensures x in KeysOfLabel(dk, big)
    {
      var k :| 0 <= k < |small| && x == Key(dk, small[k]);
      assert big[k] == small[k];
    }
    assert big[b] == distKeys[b];
  }

  // ---- what membership means --------------------------------------------------

  /** The name is one of the two labels, up to case and outer spaces. */
  predicate Named(cm: CaseMap, name: string, bn: string, en: string) {
    Norm(cm, name) == Norm(cm, bn) || Norm(cm, name) == Norm(cm, en)
  }

  /** The linear search: some division of that name has a district of that name. */
  ghost predicate Belongs(cm: CaseMap, divisions: seq<Division>, division: string, district: string) {
    exists div :: div in divisions && Named(cm, division, div.bn, div.en) && Contains(cm, div.districts, district)
  }

  ghost predicate Contains(cm: CaseMap, districts: seq<District>, district: string) {
    exists dist :: dist in districts && Named(cm, district, dist.bn, dist.en)
  }

  predicate Barless(divisions: seq<Division>) {
    forall i :: 0 <= i < |divisions| ==>
      && Free(divisions[i].bn, '|') && Free(divisions[i].en, '|')
      && forall j :: 0 <= j < |divisions[i].districts| ==>
           Free(divisions[i].districts[j].bn, '|') && Free(divisions[i].districts[j].en, '|')
  }

  lemma NormFree(cm: CaseMap, s: string)
    requires cm.Valid() && Free(s, '|')
    ensures Free(Norm(cm, s), '|')
  {
    TrimFreeBar(s);
    var t := Trim(s);
    forall i | 0 <= i < |t|
      ensures cm.lower(t[i]) != '|'
    {
      assert t[i] in t;
    }
  }

  lemma TrimFreeBar(s: string)
    requires Free(s, '|')
    ensures Free(Trim(s), '|')
  {
    var a, b := TrimSplit(s);
    assert forall c :: c in Trim(s) ==> c in a + Trim(s) + b;
  }

  lemma KeyParts(a: string, b: string, x: string, y: string)
    requires Free(x, '|') && Free(y, '|')
    ensures Key(a, b) == Key(x, y) <==> a == x && b == y
  {
    assert "|" == ['|'];
    if Key(a, b) == Key(x, y) {
      CutUnique(a, b, x, y, '|');
    }
  }

  lemma DistrictMeaning(divKeys: seq<string>, distKeys: seq<string>, a: string, b: string)
    requires |divKeys| == |distKeys| == 2
    requires Free(divKeys[0], '|') && Free(divKeys[1], '|') && Free(distKeys[0], '|') && Free(distKeys[1], '|')
    ensures Key(a, b) in KeysOfDistrict(divKeys, distKeys)
            <==> (a == divKeys[0] || a == divKeys[1]) && (b == distKeys[0] || b == distKeys[1])
  {
    KeyParts(a, b, divKeys[0], distKeys[0]);
    KeyParts(a, b, divKeys[0], distKeys[1]);
    KeyParts(a, b, divKeys[1], distKeys[0]);
    KeyParts(a, b, divKeys[1], distKeys[1]);
    var first := divKeys[..1];
    assert first[..0] == [] && first[0] == divKeys[0];
    assert KeysOfDistrict(first, distKeys) == KeysOfLabel(divKeys[0], distKeys);
    LabelPair(divKeys[0], distKeys);
    LabelPair(divKeys[1], distKeys);
  }

  lemma LabelPair(dk: string, distKeys: seq<string>)
    requires |distKeys| == 2
    ensures KeysOfLabel(dk, distKeys) == {Key(dk, distKeys[0]), Key(dk, distKeys[1])}
  {
    forall x | x in KeysOfLabel(dk, distKeys)
      ensures x in {Key(dk, distKeys[0]), Key(dk, distKeys[1])}
    {
      var k :| 0 <= k < |distKeys| && x == Key(dk, distKeys[k]);
    }
  }

  lemma {:induction false} DistrictsMeaning(cm: CaseMap, div: Division, districts: seq<District>,
                                            division: string, district: string)
    requires cm.Valid() && Free(div.bn, '|') && Free(div.en, '|')
    requires forall j :: 0 <= j < |districts| ==> Free(districts[j].bn, '|') && Free(districts[j].en, '|')
    ensures Key(Norm(cm, division), Norm(cm, district)) in KeysOfDistricts(cm, DivisionKeys(cm, div), districts)
            <==> Named(cm, division, div.bn, div.en) && Contains(cm, districts, district)
  {
    if districts == [] {
    } else {
      var k := |districts| - 1;
      var dist := districts[k];
      DistrictsMeaning(cm, div, districts[..k], division, district);
      OneDistrict(cm, div, dist, division, district);
      ContainsSnoc(cm, districts, district);
    }
  }

  lemma ContainsSnoc(cm: CaseMap, districts: seq<District>, district: string)
    requires districts != []
    ensures var k := |districts| - 1;
            Contains(cm, districts, district)
            <==> Contains(cm, districts[..k], district) || Named(cm, district, districts[k].bn, districts[k].en)
  {
    var k := |districts| - 1;
    assert forall d :: d in districts <==> d in districts[..k] || d == districts[k];
  }

  lemma OneDistrict(cm: CaseMap, div: Division, dist: District, division: string, district: string)
    requires cm.Valid() && Free(div.bn, '|') && Free(div.en, '|') && Free(dist.bn, '|') && Free(dist.en, '|')
    ensures Key(Norm(cm, division), Norm(cm, district)) in KeysOfDistrict(DivisionKeys(cm, div), DistrictKeys(cm, dist))
            <==> Named(cm, division, div.bn, div.en) && Named(cm, district, dist.bn, dist.en)
  {
    NormFree(cm, div.bn);
    NormFree(cm, div.en);
    NormFree(cm, dist.bn);
    NormFree(cm, dist.en);
    DistrictMeaning(DivisionKeys(cm, div), DistrictKeys(cm, dist), Norm(cm, division), Norm(cm, district));
  }

  /** Index lookup and linear search agree on every pair of texts, barred ones
      included, for every tree whose labels hold no bar. */
  lemma {:induction false} IndexRefinesSearch(cm: CaseMap, divisions: seq<Division>, division: string, district: string)
    requires cm.Valid() && Barless(divisions)
    ensures Listed(cm, divisions, division, district)
            <==> Belongs(cm, divisions, division, district)
  {
    if divisions == [] {
    } else {
      var k := |divisions| - 1;
      IndexRefinesSearch(cm, divisions[..k], division, district);
      DistrictsMeaning(cm, divisions[k], divisions[k].districts, division, district);
      BelongsSnoc(cm, divisions, division, district);
    }
  }

  lemma BelongsSnoc(cm: CaseMap, divisions: seq<Division>, division: string, district: string)
    requires divisions != []
    ensures var k := |divisions| - 1;
            var div := divisions[k];
            Belongs(cm, divisions, division, district)
            <==> Belongs(cm, divisions[..k], division, district)
                 || (Named(cm, division, div.bn, div.en) && Contains(cm, div.districts, district))
  {
    var k := |divisions| - 1;
    assert forall d :: d in divisions <==> d in divisions[..k] || d == divisions[k];
  }

  /** The restriction on labels is needed: here a barred label lets the index
      accept a pair that the search refuses. */
  lemma BarredLabelMisleads(cm: CaseMap)
    requires cm.Valid()
    ensures var tree := [Division("x|y", "x|y", [District("z", "z")])];
            && Listed(cm, tree, "x", "y|z")
            && !Belongs(cm, tree, "x", "y|z")
  {
    var tree := [Division("x|y", "x|y", [District("z", "z")])];
    NormPlain(cm, "x|y");
    NormPlain(cm, "z");
    NormPlain(cm, "x");
    NormPlain(cm, "y|z");
    var div := tree[0];
    var divKeys, distKeys := DivisionKeys(cm, div), DistrictKeys(cm, div.districts[0]);
    LabelPair(divKeys[1], distKeys);
    assert Key("x", "y|z") == Key("x|y", "z");
    assert Key("x", "y|z") in KeysOfDistrict(divKeys, distKeys);
    assert Key("x", "y|z") in KeysOfDistricts(cm, divKeys, div.districts);
    assert |"x"| != |"x|y"|;
  }

  lemma NormPlain(cm: CaseMap, s: string)
    requires cm.Valid() && forall c :: c in s ==> 'a' <= c <= 'z' || c == '|'
    ensures Norm(cm, s) == s
  {
    if s != "" {
      assert s[0] in s && s[|s| - 1] in s;
    }
    TrimTight(s);
    forall i | 0 <= i < |s|
      ensures cm.lower(s[i]) == s[i]
    {
      assert s[i] in s;
    }
  }

  // ---- how labels may be typed ------------------------------------------------

  ghost predicate SpelledAs(cm: CaseMap, name: string, wanted: string, a: string, x: string, b: string,
                            l: string, y: string, r: string)
  {
    && name == a + x + b && wanted == l + y + r && Blank(a) && Blank(b) && Blank(l) && Blank(r)
    && Tight(x) && Tight(y) && |x| == |y| && forall i :: 0 <= i < |x| ==> cm.lower(x[i]) == cm.lower(y[i])
  }

  /** The name is the wanted label in letters that lower-case alike, among any blanks. */
  ghost predicate Spells(cm: CaseMap, name: string, wanted: string) {
    exists a, x, b, l, y, r :: SpelledAs(cm, name, wanted, a, x, b, l, y, r)
  }

  lemma AlikeSpells(cm: CaseMap, name: string, wanted: string)
    requires Norm(cm, name) == Norm(cm, wanted)
    ensures Spells(cm, name, wanted)
  {
    var a, b := TrimSplit(name);
    var l, r := TrimSplit(wanted);
    hide Trim, Tight, Blank;
    var x, y := Trim(name), Trim(wanted);
    assert |MapChars(cm.lower, x)| == |MapChars(cm.lower, y)|;
    forall i | 0 <= i < |x|
      ensures cm.lower(x[i]) == cm.lower(y[i])
    {
      assert MapChars(cm.lower, x)[i] == MapChars(cm.lower, y)[i];
    }
    assert SpelledAs(cm, name, wanted, a, x, b, l, y, r);
  }

  lemma SpelledAlike(cm: CaseMap, name: string, wanted: string, a: string, x: string, b: string,
                     l: string, y: string, r: string)
    requires SpelledAs(cm, name, wanted, a, x, b, l, y, r)
    ensures Norm(cm, name) == Norm(cm, wanted)
  {
    TrimPadded(a, x, b);
    TrimPadded(l, y, r);
    hide Trim, Tight, Blank;
    assert MapChars(cm.lower, x) == MapChars(cm.lower, y);
  }

  lemma SpellsMeaning(cm: CaseMap, name: string, wanted: string)
    ensures Norm(cm, name) == Norm(cm, wanted) <==> Spells(cm, name, wanted)
  {
    hide Norm, SpelledAs;
    if Norm(cm, name) == Norm(cm, wanted) {
      AlikeSpells(cm, name, wanted);
    }
    if a, x, b, l, y, r :| SpelledAs(cm, name, wanted, a, x, b, l, y, r) {
      SpelledAlike(cm, name, wanted, a, x, b, l, y, r);
    }
  }

  /** A pair is accepted exactly when some division and one of its own districts are
      meant: each by its Bengali or its English label, in any letters and with any outer
      blanks. */
  lemma PairMeaning(cm: CaseMap, divisions: seq<Division>, division: string, district: string)
    requires cm.Valid() && Barless(divisions)
    ensures Listed(cm, divisions, division, district)
            <==> exists div, dist :: div in divisions && dist in div.districts
                   && (Spells(cm, division, div.bn) || Spells(cm, division, div.en))
                   && (Spells(cm, district, dist.bn) || Spells(cm, district, dist.en))
  {
    hide Spells, PairKeys, Norm;
    IndexRefinesSearch(cm, divisions, division, district);
    forall wanted
      ensures Norm(cm, division) == Norm(cm, wanted) <==> Spells(cm, division, wanted)
    {
      SpellsMeaning(cm, division, wanted);
    }
    forall wanted
      ensures Norm(cm, district) == Norm(cm, wanted) <==> Spells(cm, district, wanted)
    {
      SpellsMeaning(cm, district, wanted);
    }
  }
}

/**
 * Biome reconciliation at server start: the server's biome list is walked by
 * index against Dynmap's biome registry. A registry slot still holding its
 * default placeholder gets a new mapping (named by the biome's id string, or
 * "BIOME_<index>" when it has none) and is counted; any other slot has its
 * temperature and rainfall overwritten with the server's values.
 *
 * Temperatures and humidities are Kotlin floats that are only copied, never
 * computed with; `real` stands for them.
 */
module Biomes {
  import opened Wrappers

  /** What the server reports about the biome at one index. */
  datatype HostBiome = HostBiome(idString: Option<string>, temperature: real, humidity: real)

  /** A slot of Dynmap's biome registry. */
  datatype BiomeEntry = BiomeEntry(isDefault: bool, temperature: real, rainfall: real)

  /** A custom biome mapping created for a default slot. */
  datatype Mapping = Mapping(index: nat, name: string, temperature: real, rainfall: real)

  // ---- decimal rendering of an index, as Kotlin's "BIOME_" + i does ----

  function DigitChar(d: nat): char
    requires d < 10
  {
    "0123456789"[d]
  }

  function DigitValue(c: char): nat
  {
    if '0' <= c <= '9' then (c as int - '0' as int) as nat else 0
  }

  /** The decimal digits of n, most significant first, without leading zeros. */
  function NatToString(n: nat): (s: string)
    ensures |s| >= 1
    ensures forall k :: 0 <= k < |s| ==> '0' <= s[k] <= '9'
    ensures |s| > 1 ==> s[0] != '0'
    decreases n
  {
    if n < 10 then [DigitChar(n)] else NatToString(n / 10) + [DigitChar(n % 10)]
  }

  /** Reads a string of decimal digits back as a number. */
  function ParseNat(s: string): nat
    decreases |s|
  {
    if s == [] then 0 else ParseNat(s[..|s| - 1]) * 10 + DigitValue(s[|s| - 1])
  }

  lemma {:induction false} ParseNatToString(n: nat)
    ensures ParseNat(NatToString(n)) == n
    decreases n
  {
    var s := NatToString(n);
    if n < 10 {
      assert s[..0] == [];
    } else {
      ParseNatToString(n / 10);
      assert s[..|s| - 1] == NatToString(n / 10);
    }
  }

  const FallbackPrefix: string := "BIOME_"

  /** The name a mapping gets when the server gives no id string: the
      prefix "BIOME_" followed by digits that read back as the index. */
  function FallbackName(i: nat): (r: string)
    ensures |r| > |FallbackPrefix| && r[..|FallbackPrefix|] == FallbackPrefix
    ensures ParseNat(r[|FallbackPrefix|..]) == i
    ensures forall k :: |FallbackPrefix| <= k < |r| ==> '0' <= r[k] <= '9'
    ensures |r| > |FallbackPrefix| + 1 ==> r[|FallbackPrefix|] != '0'
  {
    ParseNatToString(i);
    var r := FallbackPrefix + NatToString(i);
    assert r[|FallbackPrefix|..] == NatToString(i);
    r
  }

  /** Fallback names never collide. */
  lemma FallbackNamesDistinct(i: nat, j: nat)
    requires i != j
    ensures FallbackName(i) != FallbackName(j)
  {
  }

  function MappingName(b: HostBiome, i: nat): string
  {
    match b.idString
    case Some(id) => id
    case None => FallbackName(i)
  }

  /** The mapping created for index i. */
  function MappingAt(biomes: seq<HostBiome>, i: nat): Mapping
    requires i < |biomes|
  {
    Mapping(i, MappingName(biomes[i], i), biomes[i].temperature, biomes[i].humidity)
  }

  /** The mappings created while walking indices 0 .. n-1, in index order. */
  function NewMappings(biomes: seq<HostBiome>, entries: seq<BiomeEntry>, n: nat): seq<Mapping>
    requires n <= |biomes| <= |entries|
    decreases n
  {
    if n == 0 then []
    else NewMappings(biomes, entries, n - 1)
         + (if entries[n - 1].isDefault then [MappingAt(biomes, n - 1)] else [])
  }

  /** The registry after the indices 0 .. n-1 are walked. */
  function Reconciled(biomes: seq<HostBiome>, entries: seq<BiomeEntry>, n: nat): (r: seq<BiomeEntry>)
    requires n <= |biomes| <= |entries|
  {
    seq(|entries|, k requires 0 <= k < |entries| =>
      if k < n && !entries[k].isDefault then
        entries[k].(temperature := biomes[k].temperature, rainfall := biomes[k].humidity)
      else entries[k])
  }

  /** The indices below n whose registry slot is default. */
  function DefaultIndices(entries: seq<BiomeEntry>, n: nat): set<nat>
    requires n <= |entries|
  {
    set k: nat | k < n && entries[k].isDefault
  }

  /** The count is the number of default slots among the walked indices. */
  lemma {:induction false} NewMappingsCount(biomes: seq<HostBiome>, entries: seq<BiomeEntry>, n: nat)
    requires n <= |biomes| <= |entries|
    ensures |NewMappings(biomes, entries, n)| == |DefaultIndices(entries, n)|
    decreases n
  {
    if n > 0 {
      NewMappingsCount(biomes, entries, n - 1);
      if entries[n - 1].isDefault {
        assert DefaultIndices(entries, n) == DefaultIndices(entries, n - 1) + {n - 1};
      } else {
        assert DefaultIndices(entries, n) == DefaultIndices(entries, n - 1);
      }
    }
  }

  /** Each created mapping belongs to a default slot below n, carries that
      index's name, temperature and humidity, and they come in strictly
      increasing index order (so no index gets two). */
  lemma {:induction false} NewMappingsSound(biomes: seq<HostBiome>, entries: seq<BiomeEntry>, n: nat)
    requires n <= |biomes| <= |entries|
    ensures forall j :: 0 <= j < |NewMappings(biomes, entries, n)| ==>
      var m := NewMappings(biomes, entries, n)[j];
      m.index < n && entries[m.index].isDefault && m == MappingAt(biomes, m.index)
    ensures forall j1, j2 :: 0 <= j1 < j2 < |NewMappings(biomes, entries, n)| ==>
      NewMappings(biomes, entries, n)[j1].index < NewMappings(biomes, entries, n)[j2].index
    decreases n
  {
    if n > 0 {
      NewMappingsSound(biomes, entries, n - 1);
    }
  }

  /** Every default slot below n gets a mapping. */
  lemma {:induction false} NewMappingsComplete(biomes: seq<HostBiome>, entries: seq<BiomeEntry>, n: nat, i: nat)
    requires n <= |biomes| <= |entries|
    requires i < n && entries[i].isDefault
    ensures MappingAt(biomes, i) in NewMappings(biomes, entries, n)
    decreases n
  {
    if i < n - 1 {
      NewMappingsComplete(biomes, entries, n - 1, i);
    }
  }

  /** Dynmap's biome registry, updated in place. */
  class BiomeRegistry {
    var entries: seq<BiomeEntry>

    constructor (initial: seq<BiomeEntry>)
      ensures entries == initial
    {
      entries := initial;
    }

    /** loadExtraBiomes: returns the count of mappings created and the
        mappings themselves; non-default slots are overwritten in place.
        The registry covers every index the server reports. */
    method LoadExtraBiomes(biomes: seq<HostBiome>) returns (count: nat, added: seq<Mapping>)
      requires |biomes| <= |entries|
      modifies this
      ensures entries == Reconciled(biomes, old(entries), |biomes|)
      ensures added == NewMappings(biomes, old(entries), |biomes|)
      ensures count == |added| == |DefaultIndices(old(entries), |biomes|)|
    {
      count := 0;
      added := [];
      for i := 0 to |biomes|
        invariant |entries| == |old(entries)|
        invariant entries == Reconciled(biomes, old(entries), i)
        invariant added == NewMappings(biomes, old(entries), i)
        invariant count == |added|
      {
        var temp := biomes[i].temperature;
        var humidity := biomes[i].humidity;
        var slot := entries[i];
        if slot.isDefault {
          var id := match biomes[i].idString
                    case Some(s) => s
                    case None => FallbackPrefix + NatToString(i);
          added := added + [Mapping(i, id, temp, humidity)];
          count := count + 1;
        } else {
          entries := entries[i := slot.(temperature := temp, rainfall := humidity)];
        }
      }
      NewMappingsCount(biomes, old(entries), |biomes|);
    }
  }
}

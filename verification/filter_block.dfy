/** The filter block of a table: one filter for each 2 KB of data blocks (table/filter_block.cc). */
module FilterBlock {
  import opened BlockFormat
  import opened Coding
  import Sequences

  /** kFilterBaseLg and kFilterBase. */
  const BASE_LG: byte := 11
  const BASE := 2048

  /** A filter policy: how a filter is made for some keys, and which keys a filter lets pass. */
  datatype Policy = Policy(create: seq<Bytes> -> Bytes, passes: (Bytes, Bytes) -> bool)

  /** No key that a filter was made for is held up. */
  ghost predicate NoFalseNegatives(policy: Policy) {
    forall keys: seq<Bytes>, key: Bytes :: key in keys ==> policy.passes(key, policy.create(keys))
  }

  /** The filter of one group of keys; none at all for no keys. */
  function FilterOf(policy: Policy, group: seq<Bytes>): Bytes {
    if group == [] then [] else policy.create(group)
  }

  function Filters(policy: Policy, groups: seq<seq<Bytes>>): (r: seq<Bytes>)
    ensures |r| == |groups|
  {
    seq(|groups|, i requires 0 <= i < |groups| => FilterOf(policy, groups[i]))
  }

  /** Where the filters start. */
  function Starts(filters: seq<Bytes>): (r: seq<nat>)
    ensures |r| == |filters|
  {
    seq(|filters|, i requires 0 <= i < |filters| => |Sequences.Flatten(filters[..i])|)
  }

  /** The finished block. */
  function FilterBlockBytes(policy: Policy, groups: seq<seq<Bytes>>): Bytes {
    var filters := Filters(policy, groups);
    var body := Sequences.Flatten(filters);
    body + FixedAll(Starts(filters)) + Fixed(|body|, 4) + [BASE_LG]
  }

  /** The groups once data blocks have reached the 2 KB range `index`. */
  function Advanced(groups: seq<seq<Bytes>>, pending: seq<Bytes>, index: nat): (r: seq<seq<Bytes>>)
    requires index >= |groups|
    ensures |r| == index
    decreases index
  {
    if index == |groups| then groups
    else if index == |groups| + 1 then groups + [pending]
    else Advanced(groups, pending, index - 1) + [[]]
  }

  lemma StartsSnoc(filters: seq<Bytes>, filter: Bytes)
    ensures Starts(filters + [filter]) == Starts(filters) + [|Sequences.Flatten(filters)|]
  {
    forall i | 0 <= i < |filters| ensures (filters + [filter])[..i] == filters[..i] {}
    assert (filters + [filter])[..|filters|] == filters;
  }

  lemma FiltersSnoc(policy: Policy, groups: seq<seq<Bytes>>, group: seq<Bytes>)
    ensures Filters(policy, groups + [group]) == Filters(policy, groups) + [FilterOf(policy, group)]
  {
  }

  class FilterBlockBuilder {
    const policy: Policy
    /** The pending keys one behind the other, and where each starts. */
    var keys: Bytes
    var start: seq<nat>
    var result: Bytes
    var filterOffsets: seq<nat>
    ghost var groups: seq<seq<Bytes>>
    ghost var pending: seq<Bytes>

    ghost predicate Valid()
      reads this
    {
      && keys == Sequences.Flatten(pending) && start == Starts(pending)
      && result == Sequences.Flatten(Filters(policy, groups)) && filterOffsets == Starts(Filters(policy, groups))
    }

    constructor (policy: Policy)
      ensures Valid() && groups == [] && pending == [] && this.policy == policy
    {
      this.policy := policy;
      keys, start, result, filterOffsets, groups, pending := [], [], [], [], [], [];
    }

    method StartBlock(blockOffset: nat)
      requires Valid() && blockOffset / BASE >= |groups|
      modifies this
      ensures Valid() && groups == Advanced(old(groups), old(pending), blockOffset / BASE)
      ensures pending == if blockOffset / BASE > |old(groups)| then [] else old(pending)
    {
      var filterIndex := blockOffset / BASE;
      while filterIndex > |filterOffsets|
        invariant Valid() && |old(groups)| <= |groups| <= filterIndex
        invariant groups == Advanced(old(groups), old(pending), |groups|)
        invariant pending == if |groups| > |old(groups)| then [] else old(pending)
      {
        GenerateFilter();
      }
    }

    method AddKey(key: Bytes)
      requires Valid()
      modifies this
      ensures Valid() && pending == old(pending) + [key] && groups == old(groups)
    {
      StartsSnoc(pending, key);
      Sequences.FlattenSnoc(pending, key);
      start := start + [|keys|];
      keys := keys + key;
      pending := pending + [key];
    }

    method GenerateFilter()
      requires Valid()
      modifies this
      ensures Valid() && groups == old(groups) + [old(pending)] && pending == []
    {
      var numKeys := |start|;
      FiltersSnoc(policy, groups, pending);
      StartsSnoc(Filters(policy, groups), FilterOf(policy, pending));
      Sequences.FlattenSnoc(Filters(policy, groups), FilterOf(policy, pending));
      groups := groups + [pending];
      if numKeys == 0 {
        filterOffsets := filterOffsets + [|result|];
        return;
      }
      var tmpKeys := SplitKeys();
      filterOffsets := filterOffsets + [|result|];
      result := result + policy.create(tmpKeys);
      keys, start := [], [];
      pending := [];
    }

    /** The list of keys from the flattened ones. */
    method SplitKeys() returns (tmpKeys: seq<Bytes>)
      requires keys == Sequences.Flatten(pending) && start == Starts(pending)
      ensures tmpKeys == pending
    {
      var ends := start + [|keys|];
      tmpKeys := [];
      assert pending[..|pending|] == pending;
      for i := 0 to |start|
        invariant tmpKeys == pending[..i]
      {
        Sequences.FlattenAt(pending, i);
        assert ends[i + 1] == |Sequences.Flatten(pending[..i + 1])|;
        tmpKeys := tmpKeys + [keys[ends[i]..ends[i + 1]]];
      }
    }

    method Finish() returns (block: Bytes)
      requires Valid()
      modifies this
      ensures block == FilterBlockBytes(policy, Finished(old(groups), old(pending)))
    {
      if start != [] {
        GenerateFilter();
      }
      AppendOffsets();
      block := result;
    }

    method AppendOffsets()
      modifies this`result
      ensures result == old(result) + FixedAll(filterOffsets) + Fixed(|old(result)|, 4) + [BASE_LG]
    {
      ghost var body := result;
      var arrayOffset := |result|;
      for i := 0 to |filterOffsets|
        invariant result == body + FixedAll(filterOffsets[..i])
      {
        FixedAllSnoc(body, filterOffsets, i);
        result := result + Fixed(filterOffsets[i], 4);
      }
      assert filterOffsets[..|filterOffsets|] == filterOffsets;
      result := result + Fixed(arrayOffset, 4);
      result := result + [BASE_LG];
    }
  }

  function Finished(groups: seq<seq<Bytes>>, pending: seq<Bytes>): seq<seq<Bytes>> {
    if pending == [] then groups else groups + [pending]
  }

  // ---------------------------------------------------------------- reading

  class FilterBlockReader {
    const policy: Policy
    const data: Bytes
    const offset: nat
    const num: nat
    const baseLg: byte

    /** A block that is too short or that points outside itself has no filters. */
    constructor (policy: Policy, contents: Bytes)
      ensures this.policy == policy && data == contents
      ensures num > 0 ==> offset + 4 * num + 5 <= |data|
      ensures |contents| >= 5 ==>
                var n := |contents|;
                var lastWord := Unfixed(contents[n - 5..n - 1]);
                && baseLg == contents[n - 1]
                && (lastWord <= n - 5 ==> offset == lastWord && num == (n - 5 - lastWord) / 4)
                && (lastWord > n - 5 ==> num == 0)
      ensures |contents| < 5 ==> num == 0
    {
      this.policy, data := policy, contents;
      offset, num, baseLg := 0, 0, 0;
      var n := |contents|;
      if n >= 5 {
        baseLg := contents[n - 1];
        var lastWord := Unfixed(contents[n - 5..n - 1]);
        if lastWord <= n - 5 {
          offset := lastWord;
          num := (n - 5 - lastWord) / 4;
        }
      }
    }

    /** A word of the offset array. */
    function Word(index: nat): nat
      requires offset + 4 * index + 4 <= |data|
    {
      Unfixed(data[offset + 4 * index..offset + 4 * index + 4])
    }

    /** Errors count as potential matches. */
    method KeyMayMatch(blockOffset: nat, key: Bytes) returns (r: bool)
      requires num > 0 ==> offset + 4 * num + 5 <= |data|
      ensures var index := ShiftRight(blockOffset, baseLg);
              if index >= num then r
              else if Word(index) <= Word(index + 1) <= offset then
                r == policy.passes(key, data[Word(index)..Word(index + 1)])
              else r == (Word(index) != Word(index + 1))
    {
      var index := ShiftRight(blockOffset, baseLg);
      if index < num {
        var start := Word(index);
        var limit := Word(index + 1);
        if start <= limit && limit <= offset {
          return policy.passes(key, data[start..limit]);
        } else if start == limit {
          return false;
        }
      }
      return true;
    }
  }

  // ---------------------------------------------------------------- the two together

  /** n >> k. */
  function ShiftRight(n: nat, k: nat): nat
    decreases k
  {
    if k == 0 then n else ShiftRight(n / 2, k - 1)
  }

  lemma ShiftFive(n: nat, k: nat)
    requires k >= 5
    ensures ShiftRight(n, k) == ShiftRight(n / 32, k - 5)
  {
    assert ShiftRight(n, k) == ShiftRight(n / 2, k - 1) == ShiftRight(n / 2 / 2, k - 2) ==
           ShiftRight(n / 2 / 2 / 2, k - 3);
    assert n / 2 / 2 / 2 == n / 8;
    assert ShiftRight(n / 8, k - 3) == ShiftRight(n / 8 / 2, k - 4) == ShiftRight(n / 8 / 2 / 2, k - 5);
  }

  lemma BaseIsPower(n: nat)
    ensures ShiftRight(n, BASE_LG) == n / BASE
  {
    ShiftFive(n, 11);
    ShiftFive(n / 32, 6);
    assert n / 32 / 32 / 2 == n / 2048;
  }

  lemma WordIn(a: Bytes, word: nat, b: Bytes)
    requires word < 0x1_0000_0000
    ensures var s := a + Fixed(word, 4) + b; Unfixed(s[|a|..|a| + 4]) == word
  {
    WordIsPower();
    FixedRoundTrip(word, 4);
    assert (a + Fixed(word, 4) + b)[|a|..|a| + 4] == Fixed(word, 4);
  }

  lemma Around(body: Bytes, offsets: Bytes, count: Bytes, tail: Bytes, i: nat)
    requires i + 4 <= |offsets|
    ensures (body + offsets + count + tail)[|body| + i..|body| + i + 4] == offsets[i..i + 4]
  {
  }

  lemma StartWord(body: Bytes, starts: seq<nat>, count: Bytes, i: nat)
    requires i < |starts| && starts[i] < 0x1_0000_0000
    ensures var block := body + FixedAll(starts) + count + [BASE_LG];
            var at := |body| + 4 * i;
            at + 4 <= |block| && Unfixed(block[at..at + 4]) == starts[i]
  {
    Around(body, FixedAll(starts), count, [BASE_LG], 4 * i);
    FixedAllAt(starts, i);
    WordIsPower();
    FixedRoundTrip(starts[i], 4);
  }

  lemma EndWord(body: Bytes, offsets: Bytes, word: nat)
    requires word < 0x1_0000_0000
    ensures var block := body + offsets + Fixed(word, 4) + [BASE_LG];
            var at := |body| + |offsets|;
            |block| == at + 5 && Unfixed(block[at..at + 4]) == word
  {
    WordIn(body + offsets, word, [BASE_LG]);
  }

  /** The word at place i of the offset array; behind the last one comes where the array starts. */
  lemma WordAt(block: Bytes, body: Bytes, starts: seq<nat>, i: nat)
    requires block == body + FixedAll(starts) + Fixed(|body|, 4) + [BASE_LG]
    requires i <= |starts| && |body| < 0x1_0000_0000 && forall k :: 0 <= k < |starts| ==> starts[k] <= |body|
    ensures |block| == |body| + 4 * |starts| + 5
    ensures Unfixed(block[|body| + 4 * i..|body| + 4 * i + 4]) == if i < |starts| then starts[i] else |body|
  {
    EndWord(body, FixedAll(starts), |body|);
    if i < |starts| {
      StartWord(body, starts, Fixed(|body|, 4), i);
    }
  }

  lemma WordIsPower()
    ensures Pow2(32) == 0x1_0000_0000
  {
    Pow2Step(32);
    Pow2Step(24);
    Pow2Step(16);
    Pow2Step(8);
  }

  /** Filter i lies where the offsets say. */
  lemma FilterAt(filters: seq<Bytes>, i: nat)
    requires i < |filters|
    ensures var body, starts := Sequences.Flatten(filters), Starts(filters);
            var end := if i + 1 < |filters| then starts[i + 1] else |body|;
            starts[i] <= end <= |body| && body[starts[i]..end] == filters[i]
  {
    Sequences.FlattenAt(filters, i);
    assert filters[..|filters|] == filters;
  }

  lemma StartsInside(filters: seq<Bytes>)
    ensures forall k :: 0 <= k < |filters| ==> Starts(filters)[k] <= |Sequences.Flatten(filters)|
  {
    forall k | 0 <= k < |filters| ensures Starts(filters)[k] <= |Sequences.Flatten(filters)| {
      FilterAt(filters, k);
    }
  }

  lemma BodyPrefix(body: Bytes, a: Bytes, b: Bytes, c: Bytes, i: nat, j: nat)
    requires i <= j <= |body|
    ensures (body + a + b + c)[i..j] == body[i..j]
  {
  }

  /** Where the array of a block with these bytes leads for filter i. */
  ghost predicate LeadsTo(data: Bytes, at: nat, i: nat, filter: Bytes) {
    && at + 4 * i + 8 <= |data|
    && var start, end :=
      Unfixed(data[at + 4 * i..at + 4 * i + 4]), Unfixed(data[at + 4 * (i + 1)..at + 4 * (i + 1) + 4]);
       start <= end <= at && data[start..end] == filter
  }

  lemma LeadsToIs(data: Bytes, at: nat, i: nat, start: nat, end: nat, filter: Bytes)
    requires at + 4 * i + 8 <= |data| && start <= end <= at && data[start..end] == filter
    requires Unfixed(data[at + 4 * i..at + 4 * i + 4]) == start
    requires Unfixed(data[at + 4 * (i + 1)..at + 4 * (i + 1) + 4]) == end
    ensures LeadsTo(data, at, i, filter)
  {
  }

  lemma FindsGroup(policy: Policy, groups: seq<seq<Bytes>>, i: nat)
    requires |FilterBlockBytes(policy, groups)| < 0x1_0000_0000 && i < |groups|
    ensures LeadsTo(FilterBlockBytes(policy, groups), |Sequences.Flatten(Filters(policy, groups))|, i,
                    FilterOf(policy, groups[i]))
  {
    hide Unfixed, Fixed, FixedAll;
    var filters := Filters(policy, groups);
    var body, starts := Sequences.Flatten(filters), Starts(filters);
    var end := if i + 1 < |starts| then starts[i + 1] else |body|;
    StartsInside(filters);
    FilterAt(filters, i);
    BodyPrefix(body, FixedAll(starts), Fixed(|body|, 4), [BASE_LG], starts[i], end);
    var block := FilterBlockBytes(policy, groups);
    WordAt(block, body, starts, i);
    WordAt(block, body, starts, i + 1);
    LeadsToIs(block, |body|, i, starts[i], end, filters[i]);
  }

  /** A reader with the filters of these groups. */
  ghost predicate Serves(reader: FilterBlockReader, groups: seq<seq<Bytes>>) {
    && reader.num == |groups| && reader.baseLg == BASE_LG
    && (reader.num > 0 ==> reader.offset + 4 * reader.num + 5 <= |reader.data|)
    && forall i :: 0 <= i < |groups| ==> LeadsTo(reader.data, reader.offset, i, FilterOf(reader.policy, groups[i]))
  }

  /** The reader of a finished block has the filters of its groups. */
  method Open(policy: Policy, ghost groups: seq<seq<Bytes>>, block: Bytes) returns (reader: FilterBlockReader)
    requires block == FilterBlockBytes(policy, groups) && |block| < 0x1_0000_0000
    ensures reader.policy == policy && Serves(reader, groups)
  {
    ghost var body, starts := Sequences.Flatten(Filters(policy, groups)), Starts(Filters(policy, groups));
    StartsInside(Filters(policy, groups));
    WordAt(block, body, starts, |starts|);
    reader := new FilterBlockReader(policy, block);
    forall i | 0 <= i < |groups| ensures LeadsTo(block, |body|, i, FilterOf(policy, groups[i])) {
      FindsGroup(policy, groups, i);
    }
  }

  /** It asks the filter of the 2 KB range that the data block starts in, and lets everything pass beyond the
      last filter. */
  method Query(reader: FilterBlockReader, ghost groups: seq<seq<Bytes>>, blockOffset: nat, key: Bytes) returns (r: bool)
    requires Serves(reader, groups)
    ensures r ==
            (blockOffset / BASE < |groups| ==>
             reader.policy.passes(key, FilterOf(reader.policy, groups[blockOffset / BASE])))
  {
    BaseIsPower(blockOffset);
    assert blockOffset / BASE < |groups| ==>
             LeadsTo(reader.data, reader.offset, blockOffset / BASE,
                     FilterOf(reader.policy, groups[blockOffset / BASE]));
    r := reader.KeyMayMatch(blockOffset, key);
  }
}

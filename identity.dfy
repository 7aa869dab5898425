/** Which builders to report on: parsing the comma-separated
    `addr[:label]` list and choosing between the query and the
    environment. */
module Identity {
  import opened Wrappers
  import opened Text

  /** One configured builder; `givenLabel` is never the empty string. */
  datatype BuilderCfg = BuilderCfg(addr: string, givenLabel: Option<string>)

  const AddressLength: nat := 42

  /** The form every accepted address has: "0x" followed by 40 more
      characters and no ASCII upper-case letter. Nothing checks that the 40
      characters are hexadecimal. */
  predicate IsCanonicalAddress(a: string)
  {
    && |a| == AddressLength
    && a[..2] == "0x"
    && (forall k :: 0 <= k < |a| ==> !IsUpper(a[k]))
  }

  /** `s || undefined` for a string. */
  function NonBlank(s: string): (r: Option<string>)
    ensures r.None? <==> s == ""
    ensures r.Some? ==> r.value == s
  {
    if s == "" then None else Some(s)
  }

  /** The address candidate of an item: its text before the first ':',
      trimmed and lower-cased. */
  function AddressCandidate(item: string): string
  {
    ToLower(Trim(Split(item, ':')[0]))
  }

  /** One non-blank item. It is kept only when its address candidate starts
      with "0x" and is 42 characters long, and then the label is the second
      ':'-segment, trimmed, or absent when missing or blank. */
  function ParseItem(item: string): (r: Option<BuilderCfg>)
    ensures r.Some? <==> StartsWith(AddressCandidate(item), "0x") && |AddressCandidate(item)| == AddressLength
    ensures r.Some? ==> r.value.addr == AddressCandidate(item) && IsCanonicalAddress(r.value.addr)
    ensures r.Some? && r.value.givenLabel.Some? ==>
      var l := r.value.givenLabel.value; l != "" && Trim(l) == l && ':' !in l
  {
    var segments := Split(item, ':');
    var addr := ToLower(Trim(segments[0]));
    if !StartsWith(addr, "0x") || |addr| != AddressLength then None
    else
      var raw := if |segments| > 1 then segments[1] else "";
      TrimIdempotent(raw);
      TrimKeepsOut(raw, ':');
      Some(BuilderCfg(addr, NonBlank(Trim(raw))))
  }

  /** What one item of the comma-separated list contributes: it is trimmed,
      skipped when blank, and otherwise parsed; a failed parse contributes
      nothing. */
  function Kept(item: string): (r: seq<BuilderCfg>)
    ensures |r| <= 1
    ensures r == [] <==> Trim(item) == "" || ParseItem(Trim(item)).None?
    ensures |r| == 1 ==> r[0] == ParseItem(Trim(item)).value && IsCanonicalAddress(r[0].addr)
  {
    var trimmed := Trim(item);
    if trimmed == "" then []
    else
      match ParseItem(trimmed)
      case None => []
      case Some(b) => [b]
  }

  /** The contributions of `f` for each item, in order. */
  function Collect(items: seq<string>, f: string -> seq<BuilderCfg>): seq<BuilderCfg>
  {
    if items == [] then [] else f(items[0]) + Collect(items[1..], f)
  }

  /** The items after `split(',')`, each handled by `Kept`, in order. */
  function ParseItems(items: seq<string>): (r: seq<BuilderCfg>)
    ensures |r| <= |items|
  {
    CollectLength(items, Kept);
    Collect(items, Kept)
  }

  lemma {:induction false} CollectLength(items: seq<string>, f: string -> seq<BuilderCfg>)
    requires forall x :: |f(x)| <= 1
    ensures |Collect(items, f)| <= |items|
  {
    if items != [] {
      CollectLength(items[1..], f);
    }
  }

  /** A property of the addresses that every contribution has holds of
      the whole list. */
  lemma {:induction false} CollectAll(items: seq<string>, f: string -> seq<BuilderCfg>, p: string -> bool)
    requires forall x, k :: 0 <= k < |f(x)| ==> p(f(x)[k].addr)
    ensures forall k :: 0 <= k < |Collect(items, f)| ==> p(Collect(items, f)[k].addr)
  {
    if items != [] {
      var r, head, rest := Collect(items, f), f(items[0]), Collect(items[1..], f);
      CollectAll(items[1..], f, p);
      forall k | 0 <= k < |r|
        ensures p(r[k].addr)
      {
        if k >= |head| {
          assert r[k] == rest[k - |head|];
        } else {
          assert r[k] == head[k];
        }
      }
    }
  }

  lemma {:induction false} CollectAppend(a: seq<string>, b: seq<string>, f: string -> seq<BuilderCfg>)
    ensures Collect(a + b, f) == Collect(a, f) + Collect(b, f)
  {
    if a != [] {
      assert (a + b)[0] == a[0];
      assert (a + b)[1..] == a[1..] + b;
      CollectAppend(a[1..], b, f);
    } else {
      assert a + b == b;
    }
  }

  lemma CollectSingle(item: string, f: string -> seq<BuilderCfg>)
    ensures Collect([item], f) == f(item)
  {
    assert [item][1..] == [];
  }

  /** Every parsed builder has a canonical address. */
  lemma ParseItemsCanonical(items: seq<string>)
    ensures forall k :: 0 <= k < |ParseItems(items)| ==> IsCanonicalAddress(ParseItems(items)[k].addr)
  {
    forall x, k | 0 <= k < |Kept(x)|
      ensures IsCanonicalAddress(Kept(x)[k].addr)
    {
      assert k == 0;
    }
    CollectAll(items, Kept, IsCanonicalAddress);
  }

  /** No white space at either end. */
  predicate EndsTrimmed(a: string)
  {
    |a| > 0 && !IsSpace(a[0]) && !IsSpace(a[|a| - 1])
  }

  /** Every parsed address is trimmed. */
  lemma ParseItemsTrimmed(items: seq<string>)
    ensures forall k :: 0 <= k < |ParseItems(items)| ==> EndsTrimmed(ParseItems(items)[k].addr)
  {
    forall x, k | 0 <= k < |Kept(x)|
      ensures EndsTrimmed(Kept(x)[k].addr)
    {
      assert k == 0;
      AddressTrimmed(Trim(x));
    }
    CollectAll(items, Kept, EndsTrimmed);
  }

  /** `parseBuildersParam`: an absent or empty parameter gives no builders. */
  function ParseBuildersParam(param: Option<string>): (r: seq<BuilderCfg>)
    ensures param.None? || param.value == "" ==> r == []
    ensures param.Some? ==> |r| <= |Split(param.value, ',')|
    ensures forall k :: 0 <= k < |r| ==> IsCanonicalAddress(r[k].addr) && EndsTrimmed(r[k].addr)
  {
    if param.None? || param.value == "" then []
    else
      var items := Split(param.value, ',');
      ParseItemsCanonical(items);
      ParseItemsTrimmed(items);
      ParseItems(items)
  }

  /** `getConfiguredBuilders`: the list from the query wins whenever it is
      non-empty; otherwise the list from the environment variable, an unset
      variable counting as the empty string. */
  function ConfiguredBuilders(query: Option<string>, env: Option<string>): (r: seq<BuilderCfg>)
    ensures ParseBuildersParam(query) != [] ==> r == ParseBuildersParam(query)
    ensures ParseBuildersParam(query) == [] ==> r == ParseBuildersParam(env)
    ensures r == [] <==> ParseBuildersParam(query) == [] && ParseBuildersParam(env) == []
  {
    var fromQuery := ParseBuildersParam(query);
    if |fromQuery| > 0 then fromQuery
    else ParseBuildersParam(Some(if env.Some? then env.value else ""))
  }

  /** Parsing respects concatenation: the builders of two runs of items are
      those of the first run followed by those of the second, so the output
      keeps the input order. */
  lemma ParseItemsAppend(a: seq<string>, b: seq<string>)
    ensures ParseItems(a + b) == ParseItems(a) + ParseItems(b)
  {
    CollectAppend(a, b, Kept);
  }

  /** Each item's contribution lands in place: the builders of a list are
      those of the items before it, then its own (none when it is blank or
      its address fails the check), then those of the items after it. */
  lemma ItemInPlace(a: seq<string>, item: string, b: seq<string>)
    ensures ParseItems(a + [item] + b) == ParseItems(a) + Kept(item) + ParseItems(b)
  {
    CollectAppend(a + [item], b, Kept);
    CollectAppend(a, [item], Kept);
    CollectSingle(item, Kept);
  }

  /** Only the first two ':'-segments matter: whatever follows a second ':'
      is ignored, and the label is the trimmed second segment. */
  lemma {:induction false} LabelIsSecondSegment(addr: string, second: string, tail: string)
    requires ':' !in addr && ':' !in second
    requires ParseItem(addr + ":" + second + ":" + tail).Some?
    ensures ParseItem(addr + ":" + second + ":" + tail).value.givenLabel == NonBlank(Trim(second))
  {
    SplitFirstTwo(addr, second, tail, ':');
  }

  /** A parsed address is trimmed: lower-casing the trimmed segment leaves
      no white space at either end. */
  lemma AddressTrimmed(item: string)
    requires ParseItem(item).Some?
    ensures var a := ParseItem(item).value.addr; !IsSpace(a[0]) && !IsSpace(a[|a| - 1])
  {
    var t := Trim(Split(item, ':')[0]);
    ToLowerSpaces(t, 0);
    ToLowerSpaces(t, |t| - 1);
  }

  /** The usual `0x…:Label` item, with one ':': the label is the trimmed
      text after it, absent when blank. */
  lemma {:induction false} OneColonLabel(addr: string, second: string)
    requires ':' !in addr && ':' !in second
    requires ParseItem(addr + ":" + second).Some?
    ensures ParseItem(addr + ":" + second).value.givenLabel == NonBlank(Trim(second))
  {
    SplitAtFirst(addr, second, ':');
    SplitWithoutSeparator(second, ':');
  }

  /** An item with no ':' at all gets no label. */
  lemma {:induction false} NoColonNoLabel(item: string)
    requires ':' !in item
    requires ParseItem(item).Some?
    ensures ParseItem(item).value.givenLabel.None?
  {
    SplitWithoutSeparator(item, ':');
  }
}

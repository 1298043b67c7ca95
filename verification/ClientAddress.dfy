// The address of the person behind a request, read from X-Forwarded-For.

module ClientAddress {
  import opened Basics

  /** The non-blank, stripped entries of a header value, left to right. */
  function Kept(parts: seq<string>): seq<string> {
    if parts == [] then []
    else if Strip(parts[0]) != [] then [Strip(parts[0])] + Kept(parts[1..])
    else Kept(parts[1..])
  }

  function Entries(header: string): seq<string> {
    Kept(Split(header, ','))
  }

  function EntriesOf(header: Option<string>): seq<string> {
    Entries(if header.Some? then header.value else "")
  }

  /** What `client_address` picks before it is normalised: the entry `hops` from the right, or the
      connection's own address when there are fewer entries than trusted proxies. */
  function ChosenAddress(forwardedFor: Option<string>, peer: Option<string>, hops: int): string {
    var entries := EntriesOf(forwardedFor);
    if hops >= 1 && |entries| >= hops then entries[|entries| - hops]
    else if peer.Some? && peer.value != "" then peer.value
    else "unknown"
  }

  /** What one proxy does to the header: it appends an entry of its own on the right, after a comma
      when there is something to append to. */
  function Appended(header: Option<string>, entry: string): string {
    match header
    case None => entry
    case Some(h) => h + [','] + entry
  }

  /** The header after the trusted proxies, outermost first, each appended its entry. */
  function Through(header: Option<string>, proxies: seq<string>): Option<string>
    decreases proxies
  {
    if proxies == [] then header
    else Through(Some(Appended(header, proxies[0])), proxies[1..])
  }

  predicate ProxyEntry(entry: string) {
    Lacks(entry, ',') && Strip(entry) != []
  }

  lemma {:induction false} KeptAppend(a: seq<string>, b: seq<string>)
    ensures Kept(a + b) == Kept(a) + Kept(b)
  {
    if a == [] {
      assert a + b == b;
    } else {
      assert (a + b)[1..] == a[1..] + b;
      KeptAppend(a[1..], b);
    }
  }

  lemma AppendedEntries(header: Option<string>, entry: string)
    requires ProxyEntry(entry)
    ensures Entries(Appended(header, entry))
         == EntriesOf(header) + [Strip(entry)]
  {
    SplitWhole(entry, ',');
    assert Kept([entry]) == [Strip(entry)] + Kept([]);
    if header.Some? {
      SplitAt(header.value, entry, ',');
      KeptAppend(Split(header.value, ','), [entry]);
    } else {
      assert Split("", ',') == [""];
      assert Kept([""]) == [];
    }
  }

  function Stripped(proxies: seq<string>): (r: seq<string>)
    ensures |r| == |proxies|
  {
    if proxies == [] then [] else [Strip(proxies[0])] + Stripped(proxies[1..])
  }

  lemma Regroup(entries: seq<string>, entry: string, more: seq<string>)
    ensures (entries + [entry]) + more == entries + ([entry] + more)
  {
  }

  lemma {:induction false} ThroughEntries(header: Option<string>, proxies: seq<string>)
    requires forall i :: 0 <= i < |proxies| ==> ProxyEntry(proxies[i])
    ensures EntriesOf(Through(header, proxies)) == EntriesOf(header) + Stripped(proxies)
    decreases proxies
  {
    if proxies != [] {
      var next := Some(Appended(header, proxies[0]));
      ThroughEntries(next, proxies[1..]);
      AppendedEntries(header, proxies[0]);
      Regroup(EntriesOf(header), Strip(proxies[0]), Stripped(proxies[1..]));
    }
  }

  lemma {:induction false} StrippedAt(proxies: seq<string>, i: nat)
    requires i < |proxies|
    ensures Stripped(proxies)[i] == Strip(proxies[i])
  {
    if i > 0 {
      StrippedAt(proxies[1..], i - 1);
    }
  }

  /** Whatever header text the client sent, once the trusted proxies have each appended an entry the
      address is the entry `hops` from the right among theirs. With hops equal to the number of
      trusted proxies that is the one the outermost proxy appended. */
  lemma TrustedEntryIsChosen(header: Option<string>, proxies: seq<string>, peer: Option<string>, hops: int)
    requires 1 <= hops <= |proxies|
    requires forall i :: 0 <= i < |proxies| ==> ProxyEntry(proxies[i])
    ensures ChosenAddress(Through(header, proxies), peer, hops) == Strip(proxies[|proxies| - hops])
    ensures hops == |proxies| ==>
      ChosenAddress(Through(header, proxies), peer, hops) == Strip(proxies[0])
  {
    ThroughEntries(header, proxies);
    StrippedAt(proxies, |proxies| - hops);
  }

  /** A header with fewer entries than trusted proxies (the API reached another way), or no trusted
      proxy at all: the connection's own address, never a header entry. */
  lemma ShortHeaderFallsBack(header: Option<string>, proxies: seq<string>, peer: Option<string>, hops: int)
    requires forall i :: 0 <= i < |proxies| ==> ProxyEntry(proxies[i])
    requires hops < 1 || |EntriesOf(header)| + |proxies| < hops
    ensures ChosenAddress(Through(header, proxies), peer, hops)
         == if peer.Some? && peer.value != "" then peer.value else "unknown"
  {
    ThroughEntries(header, proxies);
  }
}

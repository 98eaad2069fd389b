/** The channel plugin's configuration hooks (extensions/nexus/src/channel.ts):
    allow-list entries, the edits of the host configuration that enable,
    set up and delete the account, and the account queries.

    The host configuration is a `Fields` list: object spreads copy keys in
    order, and writing a key that is present keeps its place (`Assoc.Put`),
    while writing a new one appends it. */
module Channel {
  import opened Wrappers
  import opened Text
  import opened BotTypes
  import Assoc
  import Accounts
  import Monitor
  import Send

  /** The alternatives of `/^(gateway|user):/i`. */
  const AllowPrefixes: seq<string> := ["gateway:", "user:"]

  /** `pairing.normalizeAllowEntry`: drop one leading `gateway:` or `user:`,
      in any case. */
  function NormalizeAllowEntry(entry: string): (r: string)
    ensures |r| <= |entry|
    ensures r == entry || exists k :: 0 <= k < |AllowPrefixes| && StartsWithIgnoringCase(entry, AllowPrefixes[k]) && r == entry[|AllowPrefixes[k]|..]
  {
    StripFirstPrefix(entry, AllowPrefixes)
  }

  /** An entry with either prefix, in any case, loses exactly that prefix:
      a second prefix after it stays. */
  lemma NormalizeAllowPrefixed(p: string, rest: string)
    requires Lower(p) in AllowPrefixes
    ensures NormalizeAllowEntry(p + rest) == rest
  {
    var s := p + rest;
    var lp := Lower(p);
    assert forall i :: 0 <= i < |p| ==> LowerChar(s[i]) == lp[i];
    assert s[..|p|] == p && s[|p|..] == rest;
    assert StartsWithIgnoringCase(s, lp);
    if lp == "user:" {
      assert !StartsWithIgnoringCase(s, "gateway:") by {
        if |s| >= 8 { assert Lower(s[..8])[0] == LowerChar(s[0]) == 'u'; }
      }
      assert StripFirstPrefix(s, AllowPrefixes) == StripFirstPrefix(s, AllowPrefixes[1..]);
    }
  }

  /** An entry without a colon names itself: nothing is stripped. */
  lemma NormalizeAllowPlain(entry: string)
    requires forall i :: 0 <= i < |entry| ==> entry[i] != ':'
    ensures NormalizeAllowEntry(entry) == entry
  {
    forall k | 0 <= k < |AllowPrefixes|
      ensures !StartsWithIgnoringCase(entry, AllowPrefixes[k])
    {
      var q := AllowPrefixes[k];
      if |q| <= |entry| {
        assert Lower(entry[..|q|])[|q| - 1] == LowerChar(entry[|q| - 1]) != ':';
      }
    }
  }

  /** An entry as `formatAllowFrom` writes it: non-empty, without white
      space at either end, in lower case. */
  predicate Formatted(s: string) {
    s != [] && !IsSpace(s[0]) && !IsSpace(s[|s| - 1]) && forall i :: 0 <= i < |s| ==> !('A' <= s[i] <= 'Z')
  }

  /** The entry `e.trim().toLowerCase()`. */
  function FormatEntry(e: string): string {
    Lower(Trim(e))
  }

  /** Whether `formatAllowFrom` keeps an entry: its trimmed string is not
      empty. */
  predicate Kept(e: string) {
    Trim(e) != ""
  }

  /** Lower-casing a trimmed, non-empty string gives a formatted one. */
  lemma LowerTrimmed(t: string)
    requires t != [] && !IsSpace(t[0]) && !IsSpace(t[|t| - 1])
    ensures Formatted(Lower(t))
  {
    var l := Lower(t);
    assert l[0] == LowerChar(t[0]) && l[|l| - 1] == LowerChar(t[|t| - 1]);
  }

  /** A kept entry is formatted. */
  lemma EntryFormatted(e: string)
    requires Kept(e)
    ensures Formatted(FormatEntry(e))
  {
    LowerTrimmed(Trim(e));
  }

  /** A formatted entry is its own lower case. */
  lemma FormattedLower(s: string)
    requires Formatted(s)
    ensures Lower(s) == s
  {
  }

  /** The entries as `String(entry)` renders them. */
  function Stringified(allowFrom: seq<Value>): (r: seq<string>)
    ensures |r| == |allowFrom| && forall i :: 0 <= i < |allowFrom| ==> r[i] == ToString(allowFrom[i])
  {
    seq(|allowFrom|, i requires 0 <= i < |allowFrom| => ToString(allowFrom[i]))
  }

  /** `config.formatAllowFrom`: each entry as a trimmed string, the empty
      ones dropped, the rest lower-cased, in their order. */
  function FormatAllowFrom(allowFrom: seq<Value>): (r: seq<string>)
    ensures |r| <= |allowFrom|
    ensures forall i :: 0 <= i < |r| ==> Formatted(r[i])
  {
    FormatEntries(Stringified(allowFrom))
  }

  /** The string pipeline of `formatAllowFrom`. */
  function FormatEntries(entries: seq<string>): (r: seq<string>)
    ensures |r| <= |entries|
    ensures forall i :: 0 <= i < |r| ==> Formatted(r[i])
    decreases |entries|
  {
    if entries == [] then []
    else
      var rest := FormatEntries(entries[1..]);
      if Kept(entries[0]) then
        EntryFormatted(entries[0]);
        [FormatEntry(entries[0])] + rest
      else rest
  }

  /** The formatted list holds exactly the formatted kept entries. */
  lemma {:induction false} FormatEntriesMembers(entries: seq<string>, s: string)
    ensures s in FormatEntries(entries) <==>
      exists i :: 0 <= i < |entries| && Kept(entries[i]) && s == FormatEntry(entries[i])
    decreases |entries|
  {
    if entries != [] {
      var tail := entries[1..];
      FormatEntriesMembers(tail, s);
      if s in FormatEntries(tail) {
        var j :| 0 <= j < |tail| && Kept(tail[j]) && s == FormatEntry(tail[j]);
        assert entries[j + 1] == tail[j];
      }
      if exists i :: 0 <= i < |entries| && Kept(entries[i]) && s == FormatEntry(entries[i]) {
        var i :| 0 <= i < |entries| && Kept(entries[i]) && s == FormatEntry(entries[i]);
        if i > 0 {
          assert tail[i - 1] == entries[i];
        }
      }
    }
  }

  /** An allow list formats to exactly the lower-cased trimmed strings of
      its entries that are not blank. */
  lemma FormatAllowFromMembers(allowFrom: seq<Value>, s: string)
    ensures s in FormatAllowFrom(allowFrom) <==>
      exists i :: 0 <= i < |allowFrom| && Kept(ToString(allowFrom[i])) && s == FormatEntry(ToString(allowFrom[i]))
  {
    FormatEntriesMembers(Stringified(allowFrom), s);
  }

  /** One step of the pipeline: the first entry, formatted or dropped,
      then the rest. */
  lemma FormatEntriesCons(e: string, rest: seq<string>)
    ensures FormatEntries([e] + rest) == (if Kept(e) then [FormatEntry(e)] else []) + FormatEntries(rest)
  {
    assert ([e] + rest)[0] == e && ([e] + rest)[1..] == rest;
  }

  /** `formatAllowFrom` maps and filters entry by entry: the formatted
      list of two lists one after the other is their formatted lists one
      after the other, so order and repeated entries are kept. */
  lemma {:induction false} FormatEntriesAppend(a: seq<string>, b: seq<string>)
    ensures FormatEntries(a + b) == FormatEntries(a) + FormatEntries(b)
    decreases |a|
  {
    if a == [] {
      assert a + b == b;
    } else {
      var tail := a[1..];
      assert a == [a[0]] + tail;
      assert a + b == [a[0]] + (tail + b);
      FormatEntriesCons(a[0], tail + b);
      FormatEntriesCons(a[0], tail);
      FormatEntriesAppend(tail, b);
      var head := if Kept(a[0]) then [FormatEntry(a[0])] else [];
      AppendAssoc(head, FormatEntries(tail), FormatEntries(b));
    }
  }

  /** One entry formats to itself trimmed and lower-cased, or to nothing
      when it is blank. */
  lemma FormatEntriesOne(e: string)
    ensures FormatEntries([e]) == if Kept(e) then [FormatEntry(e)] else []
  {
    assert [e][1..] == [];
  }

  /** The allow list version of `FormatEntriesAppend` and
      `FormatEntriesOne`: entries are formatted one at a time and in
      order. */
  lemma FormatAllowFromAppend(a: seq<Value>, b: seq<Value>, v: Value)
    ensures FormatAllowFrom(a + b) == FormatAllowFrom(a) + FormatAllowFrom(b)
    ensures FormatAllowFrom([v]) == if Kept(ToString(v)) then [FormatEntry(ToString(v))] else []
  {
    assert Stringified(a + b) == Stringified(a) + Stringified(b);
    FormatEntriesAppend(Stringified(a), Stringified(b));
    assert Stringified([v]) == [ToString(v)];
    FormatEntriesOne(ToString(v));
  }

  /** Formatted entries as the strings a configuration would hold. */
  function Strs(ss: seq<string>): (r: seq<Value>)
    ensures |r| == |ss| && forall i :: 0 <= i < |ss| ==> r[i] == Str(ss[i])
  {
    seq(|ss|, i requires 0 <= i < |ss| => Str(ss[i]))
  }

  /** Formatted entries are kept as they are, all of them. */
  lemma {:induction false} FormattedKept(ss: seq<string>)
    requires forall i :: 0 <= i < |ss| ==> Formatted(ss[i])
    ensures FormatEntries(ss) == ss
    decreases |ss|
  {
    if ss != [] {
      var s := ss[0];
      TrimBare(s);
      FormattedLower(s);
      FormattedKept(ss[1..]);
    }
  }

  /** Formatting an allow list twice is formatting it once. */
  lemma FormatAllowFromIdempotent(allowFrom: seq<Value>)
    ensures FormatAllowFrom(Strs(FormatAllowFrom(allowFrom))) == FormatAllowFrom(allowFrom)
  {
    var once := FormatAllowFrom(allowFrom);
    assert Stringified(Strs(once)) == once;
    FormattedKept(once);
  }

  /** `channels.nexus` with every field unset: what a missing section reads
      as once something has been written into it. */
  const EmptySection: GatewayConfig := GatewayConfig(None, None, None, None, None, None, None, None)

  /** `config.setAccountEnabled`: `channels.nexus.enabled` set, every
      other key of the configuration, of `channels` and of the section kept
      with its value. */
  function SetAccountEnabled(cfg: Fields, enabled: bool): (r: Fields)
    ensures forall k :: k != "channels" ==> Assoc.Get(r, k) == Assoc.Get(cfg, k)
    ensures Assoc.Get(r, "channels").Some? && Assoc.Get(r, "channels").value.Obj?
    ensures forall k :: k != "nexus" ==> Assoc.Get(Channels(r), k) == Assoc.Get(Channels(cfg), k)
    ensures NexusSection(r) == Some(NexusSection(cfg).GetOr(EmptySection).(enabled := Some(enabled)))
  {
    var channels := Channels(cfg);
    var nexus := FieldsOf(Assoc.Get(channels, "nexus"));
    var nexus' := Assoc.Put(nexus, "enabled", Bool(enabled));
    var channels' := Assoc.Put(channels, "nexus", Obj(nexus'));
    var r := Assoc.Put(cfg, "channels", Obj(channels'));
    EditFacts(cfg, channels, nexus, enabled);
    r
  }

  /** How the three nested writes of `SetAccountEnabled` read back. */
  lemma EditFacts(cfg: Fields, channels: Fields, nexus: Fields, enabled: bool)
    requires channels == Channels(cfg) && nexus == FieldsOf(Assoc.Get(channels, "nexus"))
    ensures var nexus' := Assoc.Put(nexus, "enabled", Bool(enabled));
      var channels' := Assoc.Put(channels, "nexus", Obj(nexus'));
      var r := Assoc.Put(cfg, "channels", Obj(channels'));
      && Channels(r) == channels'
      && (forall k :: k != "channels" ==> Assoc.Get(r, k) == Assoc.Get(cfg, k))
      && (forall k :: k != "nexus" ==> Assoc.Get(channels', k) == Assoc.Get(channels, k))
      && Assoc.Get(channels', "nexus") == Some(Obj(nexus'))
      && NexusSection(r) == Some(ReadSection(nexus'))
      && ReadSection(nexus') == NexusSection(cfg).GetOr(EmptySection).(enabled := Some(enabled))
  {
    var nexus' := Assoc.Put(nexus, "enabled", Bool(enabled));
    var channels' := Assoc.Put(channels, "nexus", Obj(nexus'));
    var r := Assoc.Put(cfg, "channels", Obj(channels'));
    Assoc.GetPutSame(cfg, "channels", Obj(channels'));
    forall k | k != "channels" ensures Assoc.Get(r, k) == Assoc.Get(cfg, k) {
      Assoc.GetPutOther(cfg, "channels", Obj(channels'), k);
    }
    Assoc.GetPutSame(channels, "nexus", Obj(nexus'));
    forall k | k != "nexus" ensures Assoc.Get(channels', k) == Assoc.Get(channels, k) {
      Assoc.GetPutOther(channels, "nexus", Obj(nexus'), k);
    }
    SectionEnabled(nexus, enabled);
  }

  /** Writing `enabled` into the section's fields changes only what the
      section says about `enabled`. */
  lemma SectionEnabled(nexus: Fields, enabled: bool)
    ensures ReadSection(Assoc.Put(nexus, "enabled", Bool(enabled))) == ReadSection(nexus).(enabled := Some(enabled))
  {
    var n := Assoc.Put(nexus, "enabled", Bool(enabled));
    Assoc.GetPutSame(nexus, "enabled", Bool(enabled));
    Assoc.GetPutOther(nexus, "enabled", Bool(enabled), "serverUrl");
    Assoc.GetPutOther(nexus, "enabled", Bool(enabled), "botId");
    Assoc.GetPutOther(nexus, "enabled", Bool(enabled), "botName");
    Assoc.GetPutOther(nexus, "enabled", Bool(enabled), "token");
    Assoc.GetPutOther(nexus, "enabled", Bool(enabled), "reconnectInterval");
    Assoc.GetPutOther(nexus, "enabled", Bool(enabled), "dmPolicy");
    Assoc.GetPutOther(nexus, "enabled", Bool(enabled), "allowFrom");
  }

  /** After `setAccountEnabled` the account reports that flag, and is
      configured exactly as before. */
  lemma EnabledAccount(cfg: Fields, enabled: bool)
    ensures Accounts.ResolveGatewayAccount(SetAccountEnabled(cfg, enabled)).enabled == enabled
    ensures IsConfigured(SetAccountEnabled(cfg, enabled)) == IsConfigured(cfg)
    ensures ResolveAllowFrom(SetAccountEnabled(cfg, enabled)) == ResolveAllowFrom(cfg)
  {
  }

  /** The second of two `setAccountEnabled` edits wins and leaves the
      configuration as if it had been the only one. */
  lemma SetTwice(cfg: Fields, a: bool, b: bool)
    ensures SetAccountEnabled(SetAccountEnabled(cfg, a), b) == SetAccountEnabled(cfg, b)
  {
    var channels := Channels(cfg);
    var nexus := FieldsOf(Assoc.Get(channels, "nexus"));
    EditFacts(cfg, channels, nexus, a);
    var nexusA := Assoc.Put(nexus, "enabled", Bool(a));
    var channelsA := Assoc.Put(channels, "nexus", Obj(nexusA));
    var cfgA := Assoc.Put(cfg, "channels", Obj(channelsA));
    assert FieldsOf(Assoc.Get(Channels(cfgA), "nexus")) == nexusA;
    Assoc.PutPut(nexus, "enabled", Bool(a), Bool(b));
    var nexusB := Assoc.Put(nexus, "enabled", Bool(b));
    Assoc.PutPut(channels, "nexus", Obj(nexusA), Obj(nexusB));
    Assoc.PutPut(cfg, "channels", Obj(channelsA), Obj(Assoc.Put(channels, "nexus", Obj(nexusB))));
  }

  /** `setup.applyAccountConfig`: the account enabled, everything else
      kept. */
  function ApplyAccountConfig(cfg: Fields): (r: Fields)
    ensures NexusSection(r).Some? && NexusSection(r).value.enabled == Some(true)
    ensures Accounts.ResolveGatewayAccount(r).enabled
    ensures IsConfigured(r) == IsConfigured(cfg)
  {
    SetAccountEnabled(cfg, true)
  }

  /** Setting the account up twice is setting it up once. */
  lemma ApplyIdempotent(cfg: Fields)
    ensures ApplyAccountConfig(ApplyAccountConfig(cfg)) == ApplyAccountConfig(cfg)
  {
    SetTwice(cfg, true, true);
  }

  /** `config.deleteAccount`: `channels.nexus` removed; `channels` itself
      removed when no other channel is left in it and kept otherwise; every
      other key kept. */
  function DeleteAccount(cfg: Fields): (r: Fields)
    ensures NexusSection(r).None?
    ensures !Accounts.ResolveGatewayAccount(r).configured && !Accounts.ResolveGatewayAccount(r).enabled
    ensures forall k :: k != "channels" ==> Assoc.Get(r, k) == Assoc.Get(cfg, k)
    ensures forall k :: k != "nexus" ==> Assoc.Get(Channels(r), k) == Assoc.Get(Channels(cfg), k)
    ensures Assoc.Get(r, "channels").None? <==> forall k :: k != "nexus" ==> Assoc.Get(Channels(cfg), k).None?
  {
    var rest := Assoc.Remove(Channels(cfg), "nexus");
    var r := if |rest| > 0 then Assoc.Put(cfg, "channels", Obj(rest)) else Assoc.Remove(cfg, "channels");
    DeleteFacts(cfg, rest);
    r
  }

  /** How `DeleteAccount`'s writes read back. */
  lemma DeleteFacts(cfg: Fields, rest: Fields)
    requires rest == Assoc.Remove(Channels(cfg), "nexus")
    ensures var r := if |rest| > 0 then Assoc.Put(cfg, "channels", Obj(rest)) else Assoc.Remove(cfg, "channels");
      && Channels(r) == (if |rest| > 0 then rest else [])
      && (|rest| > 0 <==> Assoc.Get(r, "channels").Some?)
      && (forall k :: k != "channels" ==> Assoc.Get(r, k) == Assoc.Get(cfg, k))
      && (forall k :: Assoc.Get(rest, k) == if k == "nexus" then None else Assoc.Get(Channels(cfg), k))
      && (rest == [] <==> forall k :: k != "nexus" ==> Assoc.Get(Channels(cfg), k).None?)
  {
    var channels := Channels(cfg);
    forall k ensures Assoc.Get(rest, k) == if k == "nexus" then None else Assoc.Get(channels, k) {
      Assoc.GetRemove(channels, "nexus", k);
    }
    if rest != [] {
      assert Assoc.Get(rest, rest[0].0).Some?;
    }
    if |rest| > 0 {
      Assoc.GetPutSame(cfg, "channels", Obj(rest));
      forall k | k != "channels" ensures Assoc.Get(Assoc.Put(cfg, "channels", Obj(rest)), k) == Assoc.Get(cfg, k) {
        Assoc.GetPutOther(cfg, "channels", Obj(rest), k);
      }
    } else {
      forall k ensures Assoc.Get(Assoc.Remove(cfg, "channels"), k) == if k == "channels" then None else Assoc.Get(cfg, k) {
        Assoc.GetRemove(cfg, "channels", k);
      }
    }
  }

  /** Deleting the account after enabling it is deleting it: enabling
      leaves nothing behind once the section is gone. */
  lemma DeleteAfterEnable(cfg: Fields, enabled: bool)
    ensures DeleteAccount(SetAccountEnabled(cfg, enabled)) == DeleteAccount(cfg)
  {
    var channels := Channels(cfg);
    var nexus := FieldsOf(Assoc.Get(channels, "nexus"));
    EditFacts(cfg, channels, nexus, enabled);
    var channels' := Assoc.Put(channels, "nexus", Obj(Assoc.Put(nexus, "enabled", Bool(enabled))));
    var s := Assoc.Put(cfg, "channels", Obj(channels'));
    Assoc.RemovePut(channels, "nexus", Obj(Assoc.Put(nexus, "enabled", Bool(enabled))));
    var rest := Assoc.Remove(channels, "nexus");
    assert Assoc.Remove(Channels(s), "nexus") == rest;
    Assoc.PutPut(cfg, "channels", Obj(channels'), Obj(rest));
    Assoc.RemovePut(cfg, "channels", Obj(channels'));
  }

  /** `config.isConfigured`: whether credentials resolve, which is what
      the account reports as `configured`. */
  function IsConfigured(cfg: Fields): (r: bool)
    ensures r <==> NexusSection(cfg).Some? && Accounts.Given(NexusSection(cfg).value.serverUrl) && Accounts.Given(NexusSection(cfg).value.botId)
    ensures r == Accounts.ResolveGatewayAccount(cfg).configured
  {
    Accounts.ResolveGatewayCredentials(NexusSection(cfg)).Some?
  }

  /** `config.resolveAllowFrom`: the section's allow list, or none. */
  function ResolveAllowFrom(cfg: Fields): (r: seq<Value>)
    ensures NexusSection(cfg).None? || NexusSection(cfg).value.allowFrom.None? ==> r == []
    ensures NexusSection(cfg).Some? && NexusSection(cfg).value.allowFrom.Some? ==> r == NexusSection(cfg).value.allowFrom.value
  {
    if NexusSection(cfg).Some? then NexusSection(cfg).value.allowFrom.GetOr([]) else []
  }

  /** `config.listAccountIds`: the single account. */
  function ListAccountIds(): (r: seq<string>)
    ensures |r| == 1 && r[0] == Accounts.DefaultAccountId
  {
    [Accounts.DefaultAccountId]
  }

  /** The account every hook names is the one listed. */
  lemma AccountListed(cfg: Fields)
    ensures Accounts.ResolveGatewayAccount(cfg).accountId in ListAccountIds()
  {
  }

  const ApprovalText: string := "Your pairing request has been approved. You can now chat with the bot."

  /** `pairing.notifyApproval`: the approval text sent to the approved id
      as a message of its own, failing as `sendMessageGateway` does when
      the monitor has no open client. */
  method NotifyApproval(slot: Monitor.ClientSlot, id: string, freshId: string, now: int)
    returns (r: Result<Send.SendResult, string>)
    modifies slot.current
    ensures !Send.Connected(slot.current) ==> r == Failure(Send.NotConnected) && (slot.current != null ==> unchanged(slot.current))
    ensures Send.Connected(slot.current) ==>
      && r.Success? && r.value.conversationId == Send.NormalizeGatewayTarget(id)
      && slot.current.sent == old(slot.current.sent) + [Send.OutboundFrame(freshId, None, ApprovalText, now, None)]
  {
    r := Send.SendMessageGateway(slot, id, ApprovalText, None, freshId, now);
  }
}

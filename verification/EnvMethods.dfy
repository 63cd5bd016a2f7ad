/** The loops that read and render the managed settings. */
module EnvMethods {
  import opened BoundedFifo
  import opened Text
  import opened SortedNames
  import opened EnvFile
  import EnvLayout
  import Npub

  method NormalizeEntry(entry: string) returns (normalized: string)
    ensures normalized == NormalizeAccountId(entry)
  {
    var stripped := Strip(entry);
    if stripped == [] { return ""; }
    if StartsWith(Lower(stripped), "npub1") {
      var hex := Npub.NpubToHex(stripped);
      NpubHexIsTheDecoded(stripped, hex);
      return if hex.Some? then hex.value else "";
    }
    var text := Lower(stripped);
    return if StartsWith(text, "0x") then text[2..] else text;
  }

  lemma NpubHexIsTheDecoded(value: string, hex: Option<string>)
    requires hex.Some? ==> exists bytes :: Npub.IsNpub(value, bytes) && hex.value == Npub.Hex(bytes)
    requires hex.None? ==> forall bytes: seq<int> :: !Npub.IsNpub(value, bytes)
    ensures NpubHex(value) == if hex.Some? then hex.value else ""
  {
    forall a: seq<int>, b: seq<int> | Npub.IsNpub(value, a) && Npub.IsNpub(value, b) ensures a == b {
      Npub.NpubNamesOneKey(value, a, b);
    }
  }

  method ParseAllowedUsersValue(raw: string) returns (users: Result<seq<string>>)
    ensures users == ReadAllowedUsers(raw)
  {
    var parsed := DotenvScalar(raw);
    if Strip(parsed) == [] { return Ok([]); }
    var entries := SplitOn(parsed, ',');
    var found: seq<string> := [];
    for i := 0 to |entries|
      invariant Gather(ReadEntry, entries[..i]) == Ok(found)
    {
      var normalized := NormalizeEntry(entries[i]);
      GatherOneMore(ReadEntry, entries, i);
      if normalized == [] {
        if Strip(entries[i]) != [] { return Err; }
        assert found + [] == found;
      } else {
        if !IsAccountId(normalized) { return Err; }
        found := found + [normalized];
      }
    }
    assert entries[..|entries|] == entries;
    return Ok(SortedUnique(found));
  }

  lemma GatherOneMore<E, T>(readOne: E -> Result<seq<T>>, entries: seq<E>, i: nat)
    requires i < |entries|
    ensures Gather(readOne, entries[..i]).Ok? && readOne(entries[i]).Ok? ==>
              Gather(readOne, entries[..i + 1]) == Ok(Gather(readOne, entries[..i]).value + readOne(entries[i]).value)
    ensures readOne(entries[i]).Err? ==> Gather(readOne, entries).Err?
  {
    assert entries[..i + 1][..i] == entries[..i];
    if readOne(entries[i]).Err? { OneBadEntry(readOne, entries, i); }
  }

  lemma {:induction false} OneBadEntry<E, T>(readOne: E -> Result<seq<T>>, entries: seq<E>, i: nat)
    requires i < |entries| && readOne(entries[i]).Err?
    ensures Gather(readOne, entries).Err?
  {
    var n := |entries| - 1;
    if i < n { OneBadEntry(readOne, entries[..n], i); }
  }

  method ReadHermesEnvAuth(lines: seq<string>) returns (auth: Result<Auth>)
    ensures auth == ReadAuth(lines)
  {
    var allowedUsers: Option<seq<string>>, allowAll: Option<bool> := None, None;
    for i := 0 to |lines|
      invariant ReadLines(InForce(allowedUsers, allowAll), lines[i..]) == ReadAuth(lines)
    {
      assert lines[i..][0] == lines[i] && lines[i..][1..] == lines[i + 1..];
      var key := ManagedKey(lines[i]);
      if key.Some? {
        var raw := RawValue(lines[i]);
        if key.value == AllowedUsers {
          var users := ParseAllowedUsersValue(raw);
          if users.Err? { return Err; }
          allowedUsers := Some(users.value);
        } else {
          var all := ReadAllowAll(raw);
          if all.Err? { return Err; }
          allowAll := Some(all.value);
        }
      }
    }
    return Ok(InForce(allowedUsers, allowAll));
  }

  /** Missing settings count as nobody and no. */
  function InForce(allowedUsers: Option<seq<string>>, allowAll: Option<bool>): Auth {
    Auth(if allowedUsers.Some? then allowedUsers.value else [], if allowAll.Some? then allowAll.value else false)
  }

  /** The renderer: both passes over the lines, then the missing settings. */
  method RenderEnvLines(existing: seq<string>, auth: Auth) returns (output: seq<string>)
    ensures output == EnvFile.Render(auth, existing)
  {
    output := EnvLayout.RenderLines(EnvFormat(auth), MANAGED_ENV_KEYS, existing);
  }
}

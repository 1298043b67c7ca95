// Signed session tokens: version.user.expires.signature.

module Sessions {
  import opened Basics

  /** One signer: the version and lifetime are fixed by its purpose and settings; `mac` is the keyed
      signature of a payload and `userText` / `parseUser` print and read a user id. All three are
      calls into code outside this model. */
  datatype Signer<!User> = Signer(
    version: string,
    ttl: int,
    mac: string -> string,
    userText: User -> string,
    parseUser: string -> Option<User>)

  /** What the model asks of those calls: no part has a dot, and a printed id reads back. */
  ghost predicate Sound<User(!new)>(s: Signer<User>) {
    && Lacks(s.version, '.')
    && (forall p: string :: Lacks(s.mac(p), '.'))
    && (forall u: User :: Lacks(s.userText(u), '.') && s.parseUser(s.userText(u)) == Some(u))
  }

  const SESSION_VERSION := "v1"
  const DEVICE_VERSION := "d1"

  function VersionFor(purpose: string): string {
    if purpose == "device" then DEVICE_VERSION else SESSION_VERSION
  }

  /** `int(clock())` for a clock that counts up from zero. */
  function Sign<User>(s: Signer<User>, user: User, clock: real): string {
    var payload := Join([s.version, s.userText(user), IntText(clock.Floor + s.ttl)], '.');
    payload + "." + s.mac(payload)
  }

  function Verify<User>(s: Signer<User>, token: string, clock: real): Option<User> {
    var parts := Split(token, '.');
    if |parts| != 4 || parts[0] != s.version then None
    else
      var payload := Join(parts[..3], '.');
      if parts[3] != s.mac(payload) then None
      else
        var user := s.parseUser(parts[1]);
        var expires := ParseInt(parts[2]);
        if user.None? || expires.None? then None
        else if expires.value as real < clock then None
        else user
  }

  lemma JoinTwo(a: string, b: string)
    ensures Join([a, b], '.') == a + "." + b
  {
    assert [a, b][1..] == [b];
    assert Join([b], '.') == b;
  }

  lemma JoinThree(a: string, b: string, c: string)
    ensures Join([a, b, c], '.') == a + "." + b + "." + c
  {
    assert [a, b, c][1..] == [b, c];
    JoinTwo(b, c);
  }

  lemma SplitFour(a: string, b: string, c: string, d: string)
    requires Lacks(a, '.') && Lacks(b, '.') && Lacks(c, '.') && Lacks(d, '.')
    ensures Split(Join([a, b, c], '.') + "." + d, '.') == [a, b, c, d]
  {
    JoinThree(a, b, c);
    var cd := c + "." + d;
    var bcd := b + "." + cd;
    assert Join([a, b, c], '.') + "." + d == a + "." + bcd;
    SplitWhole(d, '.');
    SplitFirst(c, d);
    SplitFirst(b, cd);
    SplitFirst(a, bcd);
  }

  lemma SplitFirst(a: string, rest: string)
    requires Lacks(a, '.')
    ensures Split(a + "." + rest, '.') == [a] + Split(rest, '.')
  {
    SplitWhole(a, '.');
    SplitAt(a, rest, '.');
  }

  /** A signed token verifies to its user up to and including its expiry second, and to nobody
      afterwards, for every user, signing time and reading time. */
  lemma VerifySign<User(!new)>(s: Signer<User>, user: User, signedAt: real, readAt: real)
    requires Sound(s)
    ensures Verify(s, Sign(s, user, signedAt), readAt)
         == if readAt <= (signedAt.Floor + s.ttl) as real then Some(user) else None
  {
    var expires := signedAt.Floor + s.ttl;
    var payload := Join([s.version, s.userText(user), IntText(expires)], '.');
    var parts := [s.version, s.userText(user), IntText(expires), s.mac(payload)];
    assert Lacks(IntText(expires), '.');
    SplitFour(parts[0], parts[1], parts[2], parts[3]);
    assert parts[..3] == [s.version, s.userText(user), IntText(expires)];
    ParseIntText(expires);
  }

  /** Every token a signer accepts is four dot-free parts: its own version, a readable user, an
      expiry that has not passed, and the signature of the first three. */
  lemma AcceptedTokenShape<User(!new)>(s: Signer<User>, token: string, clock: real)
    requires Verify(s, token, clock).Some?
    ensures exists user: string, expires: string, mac: string ::
      && Lacks(s.version, '.') && Lacks(user, '.') && Lacks(expires, '.') && Lacks(mac, '.')
      && token == Join([s.version, user, expires], '.') + "." + mac
      && mac == s.mac(Join([s.version, user, expires], '.'))
      && s.parseUser(user) == Verify(s, token, clock)
      && ParseInt(expires).Some? && clock <= ParseInt(expires).value as real
  {
    var parts := Split(token, '.');
    JoinSplit(token, '.');
    var head := [parts[0], parts[1], parts[2]];
    assert parts[..3] == head;
    JoinThree(parts[0], parts[1], parts[2]);
    assert parts[1..] == [parts[1], parts[2], parts[3]];
    JoinThree(parts[1], parts[2], parts[3]);
    assert Join(parts, '.') == parts[0] + ['.'] + Join(parts[1..], '.');
    assert token == Join(head, '.') + "." + parts[3];
  }

  /** A device token is not a session token and a session token is not a device token, whatever
      secret, clock or signature function the two signers have. */
  lemma PurposesDoNotMix<User(!new)>(a: Signer<User>, b: Signer<User>, purpose: string, token: string,
                                     clockA: real, clockB: real)
    requires a.version == VersionFor("device")
    requires purpose != "device" && b.version == VersionFor(purpose)
    ensures Verify(a, token, clockA).None? || Verify(b, token, clockB).None?
  {
    var parts := Split(token, '.');
    assert DEVICE_VERSION[0] != SESSION_VERSION[0];
  }
}

/** getAccountCreationDate (bot/CommandHelpers.go): the account's creation
    time in whole seconds, read from the timestamp in the high bits of the
    user's snowflake id. */
module AccountAge {
  import opened Gateway
  import opened Numerals

  /** The platform's epoch, 2015-01-01T00:00:00Z, in milliseconds. */
  const DiscordEpochMs: nat := 1420070400000

  /** Shifting right by 22 bits is division by 2^22. */
  const TimestampUnit: nat := 0x40_0000

  /** The creation time in milliseconds encoded in a 64-bit id. */
  function CreationMillis(id: nat): (ms: nat)
    requires id <= MaxUint64
    ensures DiscordEpochMs <= ms <= MaxUint64
  {
    id / TimestampUnit + DiscordEpochMs
  }

  /** The creation time in seconds: the milliseconds value divided by 1000,
      rounded down. */
  function CreationSeconds(id: nat): (t: nat)
    requires id <= MaxUint64
    ensures t * 1000 <= CreationMillis(id) < (t + 1) * 1000
    ensures 1420070400 <= t <= 5818116911
  {
    CreationMillis(id) / 1000
  }

  /** getAccountCreationDate: the id is read as a decimal 64-bit number with
      the parse error ignored, so an unreadable id reads as 0 and one beyond
      64 bits as the largest 64-bit value. The result always fits an int64. */
  function GetAccountCreationDate(user: User): (t: int)
    ensures 1420070400 <= t <= 5818116911 < 0x7FFF_FFFF_FFFF_FFFF
    ensures t * 1000 <= CreationMillis(ParseUint64Lax(user.id)) < (t + 1) * 1000
  {
    CreationSeconds(ParseUint64Lax(user.id))
  }

  /** A later id never gives an earlier creation time. */
  lemma CreationSecondsMonotone(a: nat, b: nat)
    requires a <= b <= MaxUint64
    ensures CreationSeconds(a) <= CreationSeconds(b)
  {
    assert a / TimestampUnit <= b / TimestampUnit;
  }

  /** An empty id, or one with a non-digit after leading digits that fit in
      64 bits, reads as 0 and gives the epoch itself. */
  lemma UnreadableIdGivesEpoch(user: User)
    requires user.id == [] || !AllDigits(user.id, 10)
    requires Value(user.id[..DigitRun(user.id)], 10) <= MaxUint64
    ensures GetAccountCreationDate(user) == 1420070400
  {
    ParseUint64LaxValue(user.id);
  }

  /** An id whose leading digits exceed 64 bits reads as the largest 64-bit
      value, whatever follows them, and gives the latest possible time. */
  lemma OverflowingIdGivesLatest(user: User)
    requires Value(user.id[..DigitRun(user.id)], 10) > MaxUint64
    ensures GetAccountCreationDate(user) == 5818116911
  {
    ParseUint64LaxValue(user.id);
  }

  lemma SampleIdDigits5()
    ensures Value("80351", 10) == 80351
  {
    ValueSnoc("8", '0', 10);
    assert "8" + ['0'] == "80";
    ValueSnoc("80", '3', 10);
    assert "80" + ['3'] == "803";
    ValueSnoc("803", '5', 10);
    assert "803" + ['5'] == "8035";
    ValueSnoc("8035", '1', 10);
    assert "8035" + ['1'] == "80351";
  }

  lemma SampleIdDigits9()
    ensures Value("803511102", 10) == 803511102
  {
    SampleIdDigits5();
    ValueSnoc("80351", '1', 10);
    assert "80351" + ['1'] == "803511";
    ValueSnoc("803511", '1', 10);
    assert "803511" + ['1'] == "8035111";
    ValueSnoc("8035111", '0', 10);
    assert "8035111" + ['0'] == "80351110";
    ValueSnoc("80351110", '2', 10);
    assert "80351110" + ['2'] == "803511102";
  }

  lemma SampleIdDigits13()
    ensures Value("8035111022467", 10) == 8035111022467
  {
    SampleIdDigits9();
    ValueSnoc("803511102", '2', 10);
    assert "803511102" + ['2'] == "8035111022";
    ValueSnoc("8035111022", '4', 10);
    assert "8035111022" + ['4'] == "80351110224";
    ValueSnoc("80351110224", '6', 10);
    assert "80351110224" + ['6'] == "803511102246";
    ValueSnoc("803511102246", '7', 10);
    assert "803511102246" + ['7'] == "8035111022467";
  }

  lemma SampleIdValue()
    ensures Value("80351110224678912", 10) == 80351110224678912
  {
    SampleIdDigits13();
    ValueSnoc("8035111022467", '8', 10);
    assert "8035111022467" + ['8'] == "80351110224678";
    ValueSnoc("80351110224678", '9', 10);
    assert "80351110224678" + ['9'] == "803511102246789";
    ValueSnoc("803511102246789", '1', 10);
    assert "803511102246789" + ['1'] == "8035111022467891";
    ValueSnoc("8035111022467891", '2', 10);
    assert "8035111022467891" + ['2'] == "80351110224678912";
  }

  /** The platform documentation's sample id 80351110224678912. */
  lemma SampleId(user: User)
    requires user.id == "80351110224678912"
    ensures GetAccountCreationDate(user) == 1439227597
  {
    SampleIdValue();
    assert AllDigits(user.id, 10);
    ParseDecimalNumeral(user.id);
  }
}

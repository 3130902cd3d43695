/** The check on the test vectors of the legacy package's tests: six published IBANs are accepted,
    and one whose country code is altered is rejected. Each proof runs the loop chunk by chunk. */
module IbanVectors {
  import opened Common
  import opened Iban

  /** Rotating a string with a four-character head moves that head to the end. */
  lemma RotateOf(head: string, tail: string)
    requires |head| == 4
    ensures Rotate(head + tail) == tail + head
  {
    assert (head + tail)[4..] == tail;
    assert (head + tail)[..4] == head;
  }

  /** The loop over `a + b` from zero, given its runs over the two parts. */
  lemma Extend(a: string, b: string, m: nat, n: nat)
    requires Accumulate(a, 0, 0) == Some(m)
    requires Accumulate(b, 0, m) == Some(n)
    ensures Accumulate(a + b, 0, 0) == Some(n)
  {
    AccumulateAppend(a, b, 0, 0);
  }

  /** The loop over the rotated France IBAN, run chunk by chunk. */
  lemma ValidFranceLoop()
    ensures Accumulate("2004" + "1010" + "0505" + "0001" + "3M02" + "606" + "FR14", 0, 0) == Some(200410100505000132202606152714)
  {
    assert Accumulate("2004", 0, 0) == Some(2004) by {}
    assert Accumulate("1010", 0, 2004) == Some(20041010) by {}
    Extend("2004", "1010", 2004, 20041010);
    assert Accumulate("0505", 0, 20041010) == Some(200410100505) by {}
    Extend("2004" + "1010", "0505", 20041010, 200410100505);
    assert Accumulate("0001", 0, 200410100505) == Some(2004101005050001) by {}
    Extend("2004" + "1010" + "0505", "0001", 200410100505, 2004101005050001);
    assert Accumulate("3M02", 0, 2004101005050001) == Some(200410100505000132202) by {}
    Extend("2004" + "1010" + "0505" + "0001", "3M02", 2004101005050001, 200410100505000132202);
    assert Accumulate("606", 0, 200410100505000132202) == Some(200410100505000132202606) by {}
    Extend("2004" + "1010" + "0505" + "0001" + "3M02", "606", 200410100505000132202, 200410100505000132202606);
    assert Accumulate("FR14", 0, 200410100505000132202606) == Some(200410100505000132202606152714) by {}
    Extend("2004" + "1010" + "0505" + "0001" + "3M02" + "606", "FR14", 200410100505000132202606, 200410100505000132202606152714);
  }

  lemma ValidFranceRotated(iban: string)
    requires iban == "FR1420041010050500013M02606"
    ensures Accumulate(Rotate(iban), 0, 0) == Some(200410100505000132202606152714)
  {
    assert "FR1420041010050500013M02606" == "FR14" + ("2004" + "1010" + "0505" + "0001" + "3M02" + "606") by {}
    RotateOf("FR14", "2004" + "1010" + "0505" + "0001" + "3M02" + "606");
    ValidFranceLoop();
  }

  /** The French test IBAN, with a letter among its account characters. */
  lemma ValidFrance(iban: string)
    requires iban == "FR1420041010050500013M02606"
    ensures IsValid(iban)
  {
    ValidFranceRotated(iban);
    IsValidFromLoop(iban, 200410100505000132202606152714);
  }

  /** The loop over the rotated Britain IBAN, run chunk by chunk. */
  lemma ValidBritainLoop()
    ensures Accumulate("NWBK" + "6016" + "1331" + "9268" + "19" + "GB29", 0, 0) == Some(2332112060161331926819161129)
  {
    assert Accumulate("NWBK", 0, 0) == Some(23321120) by {}
    assert Accumulate("6016", 0, 23321120) == Some(233211206016) by {}
    Extend("NWBK", "6016", 23321120, 233211206016);
    assert Accumulate("1331", 0, 233211206016) == Some(2332112060161331) by {}
    Extend("NWBK" + "6016", "1331", 233211206016, 2332112060161331);
    assert Accumulate("9268", 0, 2332112060161331) == Some(23321120601613319268) by {}
    Extend("NWBK" + "6016" + "1331", "9268", 2332112060161331, 23321120601613319268);
    assert Accumulate("19", 0, 23321120601613319268) == Some(2332112060161331926819) by {}
    Extend("NWBK" + "6016" + "1331" + "9268", "19", 23321120601613319268, 2332112060161331926819);
    assert Accumulate("GB29", 0, 2332112060161331926819) == Some(2332112060161331926819161129) by {}
    Extend("NWBK" + "6016" + "1331" + "9268" + "19", "GB29", 2332112060161331926819, 2332112060161331926819161129);
  }

  lemma ValidBritainRotated(iban: string)
    requires iban == "GB29NWBK60161331926819"
    ensures Accumulate(Rotate(iban), 0, 0) == Some(2332112060161331926819161129)
  {
    assert "GB29NWBK60161331926819" == "GB29" + ("NWBK" + "6016" + "1331" + "9268" + "19") by {}
    RotateOf("GB29", "NWBK" + "6016" + "1331" + "9268" + "19");
    ValidBritainLoop();
  }

  /** The British test IBAN. */
  lemma ValidBritain(iban: string)
    requires iban == "GB29NWBK60161331926819"
    ensures IsValid(iban)
  {
    ValidBritainRotated(iban);
    IsValidFromLoop(iban, 2332112060161331926819161129);
  }

  /** The loop over the rotated Austria IBAN, run chunk by chunk. */
  lemma ValidAustriaLoop()
    ensures Accumulate("1904" + "3002" + "3457" + "3201" + "AT61", 0, 0) == Some(1904300234573201102961)
  {
    assert Accumulate("1904", 0, 0) == Some(1904) by {}
    assert Accumulate("3002", 0, 1904) == Some(19043002) by {}
    Extend("1904", "3002", 1904, 19043002);
    assert Accumulate("3457", 0, 19043002) == Some(190430023457) by {}
    Extend("1904" + "3002", "3457", 19043002, 190430023457);
    assert Accumulate("3201", 0, 190430023457) == Some(1904300234573201) by {}
    Extend("1904" + "3002" + "3457", "3201", 190430023457, 1904300234573201);
    assert Accumulate("AT61", 0, 1904300234573201) == Some(1904300234573201102961) by {}
    Extend("1904" + "3002" + "3457" + "3201", "AT61", 1904300234573201, 1904300234573201102961);
  }

  lemma ValidAustriaRotated(iban: string)
    requires iban == "AT611904300234573201"
    ensures Accumulate(Rotate(iban), 0, 0) == Some(1904300234573201102961)
  {
    assert "AT611904300234573201" == "AT61" + ("1904" + "3002" + "3457" + "3201") by {}
    RotateOf("AT61", "1904" + "3002" + "3457" + "3201");
    ValidAustriaLoop();
  }

  /** The Austrian test IBAN. */
  lemma ValidAustria(iban: string)
    requires iban == "AT611904300234573201"
    ensures IsValid(iban)
  {
    ValidAustriaRotated(iban);
    IsValidFromLoop(iban, 1904300234573201102961);
  }

  /** The loop over the rotated Belgium IBAN, run chunk by chunk. */
  lemma ValidBelgiumLoop()
    ensures Accumulate("5100" + "0754" + "7061" + "BE62", 0, 0) == Some(510007547061111462)
  {
    assert Accumulate("5100", 0, 0) == Some(5100) by {}
    assert Accumulate("0754", 0, 5100) == Some(51000754) by {}
    Extend("5100", "0754", 5100, 51000754);
    assert Accumulate("7061", 0, 51000754) == Some(510007547061) by {}
    Extend("5100" + "0754", "7061", 51000754, 510007547061);
    assert Accumulate("BE62", 0, 510007547061) == Some(510007547061111462) by {}
    Extend("5100" + "0754" + "7061", "BE62", 510007547061, 510007547061111462);
  }

  lemma ValidBelgiumRotated(iban: string)
    requires iban == "BE62510007547061"
    ensures Accumulate(Rotate(iban), 0, 0) == Some(510007547061111462)
  {
    assert "BE62510007547061" == "BE62" + ("5100" + "0754" + "7061") by {}
    RotateOf("BE62", "5100" + "0754" + "7061");
    ValidBelgiumLoop();
  }

  /** The Belgian test IBAN, the shortest of the set. */
  lemma ValidBelgium(iban: string)
    requires iban == "BE62510007547061"
    ensures IsValid(iban)
  {
    ValidBelgiumRotated(iban);
    IsValidFromLoop(iban, 510007547061111462);
  }

  /** The loop over the rotated Bulgaria IBAN, run chunk by chunk. */
  lemma ValidBulgariaLoop()
    ensures Accumulate("BNBG" + "9661" + "1020" + "3456" + "78" + "BG80", 0, 0) == Some(1123111696611020345678111680)
  {
    assert Accumulate("BNBG", 0, 0) == Some(11231116) by {}
    assert Accumulate("9661", 0, 11231116) == Some(112311169661) by {}
    Extend("BNBG", "9661", 11231116, 112311169661);
    assert Accumulate("1020", 0, 112311169661) == Some(1123111696611020) by {}
    Extend("BNBG" + "9661", "1020", 112311169661, 1123111696611020);
    assert Accumulate("3456", 0, 1123111696611020) == Some(11231116966110203456) by {}
    Extend("BNBG" + "9661" + "1020", "3456", 1123111696611020, 11231116966110203456);
    assert Accumulate("78", 0, 11231116966110203456) == Some(1123111696611020345678) by {}
    Extend("BNBG" + "9661" + "1020" + "3456", "78", 11231116966110203456, 1123111696611020345678);
    assert Accumulate("BG80", 0, 1123111696611020345678) == Some(1123111696611020345678111680) by {}
    Extend("BNBG" + "9661" + "1020" + "3456" + "78", "BG80", 1123111696611020345678, 1123111696611020345678111680);
  }

  lemma ValidBulgariaRotated(iban: string)
    requires iban == "BG80BNBG96611020345678"
    ensures Accumulate(Rotate(iban), 0, 0) == Some(1123111696611020345678111680)
  {
    assert "BG80BNBG96611020345678" == "BG80" + ("BNBG" + "9661" + "1020" + "3456" + "78") by {}
    RotateOf("BG80", "BNBG" + "9661" + "1020" + "3456" + "78");
    ValidBulgariaLoop();
  }

  /** The Bulgarian test IBAN. */
  lemma ValidBulgaria(iban: string)
    requires iban == "BG80BNBG96611020345678"
    ensures IsValid(iban)
  {
    ValidBulgariaRotated(iban);
    IsValidFromLoop(iban, 1123111696611020345678111680);
  }

  /** The loop over the rotated Estonia IBAN, run chunk by chunk. */
  lemma ValidEstoniaLoop()
    ensures Accumulate("2200" + "2210" + "2014" + "5685" + "EE38", 0, 0) == Some(2200221020145685141438)
  {
    assert Accumulate("2200", 0, 0) == Some(2200) by {}
    assert Accumulate("2210", 0, 2200) == Some(22002210) by {}
    Extend("2200", "2210", 2200, 22002210);
    assert Accumulate("2014", 0, 22002210) == Some(220022102014) by {}
    Extend("2200" + "2210", "2014", 22002210, 220022102014);
    assert Accumulate("5685", 0, 220022102014) == Some(2200221020145685) by {}
    Extend("2200" + "2210" + "2014", "5685", 220022102014, 2200221020145685);
    assert Accumulate("EE38", 0, 2200221020145685) == Some(2200221020145685141438) by {}
    Extend("2200" + "2210" + "2014" + "5685", "EE38", 2200221020145685, 2200221020145685141438);
  }

  lemma ValidEstoniaRotated(iban: string)
    requires iban == "EE382200221020145685"
    ensures Accumulate(Rotate(iban), 0, 0) == Some(2200221020145685141438)
  {
    assert "EE382200221020145685" == "EE38" + ("2200" + "2210" + "2014" + "5685") by {}
    RotateOf("EE38", "2200" + "2210" + "2014" + "5685");
    ValidEstoniaLoop();
  }

  /** The Estonian test IBAN. */
  lemma ValidEstonia(iban: string)
    requires iban == "EE382200221020145685"
    ensures IsValid(iban)
  {
    ValidEstoniaRotated(iban);
    IsValidFromLoop(iban, 2200221020145685141438);
  }

  /** The loop over the rotated altered IBAN, run chunk by chunk. */
  lemma InvalidCountryCodeLoop()
    ensures Accumulate("2200" + "2210" + "2014" + "5685" + "ZZ38", 0, 0) == Some(2200221020145685353538)
  {
    assert Accumulate("2200", 0, 0) == Some(2200) by {}
    assert Accumulate("2210", 0, 2200) == Some(22002210) by {}
    Extend("2200", "2210", 2200, 22002210);
    assert Accumulate("2014", 0, 22002210) == Some(220022102014) by {}
    Extend("2200" + "2210", "2014", 22002210, 220022102014);
    assert Accumulate("5685", 0, 220022102014) == Some(2200221020145685) by {}
    Extend("2200" + "2210" + "2014", "5685", 220022102014, 2200221020145685);
    assert Accumulate("ZZ38", 0, 2200221020145685) == Some(2200221020145685353538) by {}
    Extend("2200" + "2210" + "2014" + "5685", "ZZ38", 2200221020145685, 2200221020145685353538);
  }

  lemma InvalidCountryCodeRotated(iban: string)
    requires iban == "ZZ382200221020145685"
    ensures Accumulate(Rotate(iban), 0, 0) == Some(2200221020145685353538)
  {
    assert "ZZ382200221020145685" == "ZZ38" + ("2200" + "2210" + "2014" + "5685") by {}
    RotateOf("ZZ38", "2200" + "2210" + "2014" + "5685");
    InvalidCountryCodeLoop();
  }

  /** The Estonian IBAN with its country code replaced by ZZ: its check digits no longer match. */
  lemma InvalidCountryCode(iban: string)
    requires iban == "ZZ382200221020145685"
    ensures !IsValid(iban)
  {
    InvalidCountryCodeRotated(iban);
    IsValidFromLoop(iban, 2200221020145685353538);
  }
}

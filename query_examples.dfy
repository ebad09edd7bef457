/**
  Example specifiers and endpoints checked against the model: well-formed,
  empty-field, short and long specifiers, and one host with zero to two
  trailing slashes.
 */
module QueryExamples {
  import opened Strings
  import opened Query

  /** `1-123456-A-G` is chromosome 1, position 123456, A to G. */
  lemma VariantExample()
    ensures ParseVariant("1-123456-A-G") == Ok(Variant("1", "123456", "A", "G"))
  {
    var v := Variant("1", "123456", "A", "G");
    assert FormatVariant(v) == "1-123456-A-G" by {
      JoinCons("A", ["G"], '-');
      JoinCons("123456", ["A", "G"], '-');
      JoinCons("1", ["123456", "A", "G"], '-');
    }
    VariantRoundTrip(v);
  }

  /** Empty fields are kept: `1--A-G` has an empty position. */
  lemma EmptyFieldExample()
    ensures ParseVariant("1--A-G") == Ok(Variant("1", "", "A", "G"))
  {
    var w := Variant("1", "", "A", "G");
    assert FormatVariant(w) == "1--A-G" by {
      JoinCons("A", ["G"], '-');
      JoinCons("", ["A", "G"], '-');
      JoinCons("1", ["", "A", "G"], '-');
    }
    VariantRoundTrip(w);
  }

  /** One dash too few: Python reports the three values it found. */
  lemma ShortVariantExample()
    ensures ParseVariant("1-123456-A") == Err(NotEnoughValues(3))
  {
  }

  /** One dash too many. */
  lemma LongVariantExample()
    ensures ParseVariant("1-123456-A-G-T") == Err(TooManyValues)
  {
  }

  /** `http://host` normalises the same with zero, one or two trailing slashes. */
  lemma HostExample()
    ensures StripTrailingSlashes("http://host") == "http://host"
    ensures StripTrailingSlashes("http://host/") == "http://host"
    ensures StripTrailingSlashes("http://host//") == "http://host"
  {
  }

  /**
    With the variant `1-123456-A-G`, `http://host/` and `http://host` both
    query `http://host/query`. The variant is a parameter fixed by the
    `requires` because the proof is about four times cheaper this way than
    with the literal written inside `BuildRequest`.
   */
  lemma QueryUrlExample(variant: string, key: seq<byte>, keyId: string, user: string)
    requires variant == "1-123456-A-G"
    ensures var r := BuildRequest(StripTrailingSlashes("http://host/"), Some(variant), key, keyId, user);
      r.Ok? && r.value.url == "http://host/query"
    ensures var r := BuildRequest(StripTrailingSlashes("http://host"), Some(variant), key, keyId, user);
      r.Ok? && r.value.url == "http://host/query"
  {
    assert "http://host" + "/query" == "http://host/query";
    assert StripTrailingSlashes("http://host/") == StripTrailingSlashes("http://host") == "http://host" by {
      HostExample();
    }
    assert Count(variant, '-') == 3 by {
      VariantExample();
    }
  }

  /** Without a variant, the info request for `http://host//` goes to `http://host/`. */
  lemma InfoUrlExample(key: seq<byte>, keyId: string, user: string)
    ensures var r := BuildRequest(StripTrailingSlashes("http://host//"), None, key, keyId, user);
      r.Ok? && r.value.url == "http://host/"
  {
  }
}

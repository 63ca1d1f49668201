/**
 * The salt policy of the anonymisation settings: a deny-list of placeholder salts
 * plus a minimum length, and the warning text shown for an unsafe salt.
 */
module Settings {
  import opened Strings

  /** The shipped default of `hash_salt`, meant to be overridden through HASH_SALT. */
  const DefaultSalt: string := "CHANGE_THIS_SALT_IN_PRODUCTION"

  const DefaultMinSaltLength: int := 16

  /** Salts that are never accepted, whatever their length. */
  const InsecureDefaults: seq<string> := [DefaultSalt, "default_salt", "salt", "123456", ""]

  const CriticalWarning: string := "AVISO CRITICO:" + " Salt padrao em uso! Defina HASH_SALT no arquivo .env"

  /** The two fields of the anonymisation settings that the salt policy reads. */
  datatype AnonymizationSettings = AnonymizationSettings(hashSalt: string, minSaltLength: int)

  /** The settings as they are when no environment override is present. */
  const Defaults: AnonymizationSettings := AnonymizationSettings(DefaultSalt, DefaultMinSaltLength)

  /** Whether the configured salt may be used in production. */
  predicate IsSaltSecure(s: AnonymizationSettings)
  {
    s.hashSalt !in InsecureDefaults && |s.hashSalt| >= s.minSaltLength
  }

  function ShortSaltWarning(s: AnonymizationSettings): (w: string)
    ensures |w| > 7 && w[..7] == "AVISO: "
  {
    var rest := "Salt muito curto (" + FormatInt(|s.hashSalt|) + " chars). Minimo recomendado: "
      + FormatInt(s.minSaltLength);
    assert ("AVISO: " + rest)[..7] == "AVISO: ";
    "AVISO: " + rest
  }

  /**
   * The diagnostic for the configured salt: the critical message for the shipped
   * default, the "too short" message for a salt below the minimum length, and
   * the empty string otherwise.
   */
  function GetSaltWarning(s: AnonymizationSettings): (w: string)
    ensures w == CriticalWarning <==> s.hashSalt == DefaultSalt
    ensures w == ShortSaltWarning(s) <==> s.hashSalt != DefaultSalt && |s.hashSalt| < s.minSaltLength
    ensures w == "" <==> s.hashSalt != DefaultSalt && |s.hashSalt| >= s.minSaltLength
  {
    assert CriticalWarning[..7] == "AVISO C";
    assert ShortSaltWarning(s)[..7][6] == ' ';
    if s.hashSalt == DefaultSalt then CriticalWarning
    else if |s.hashSalt| < s.minSaltLength then ShortSaltWarning(s)
    else ""
  }

  /**
   * Every deny-listed salt other than the default is at most 12 characters long,
   * so once the minimum length exceeds 12 the warning is empty exactly when the
   * salt is secure.
   */
  lemma WarningEmptyIffSecure(s: AnonymizationSettings)
    requires s.minSaltLength > 12
    ensures GetSaltWarning(s) == "" <==> IsSaltSecure(s)
  {
    forall x | x in InsecureDefaults && x != DefaultSalt ensures |x| <= 12 {
    }
  }

  /** The same equivalence for the shipped minimum of 16 characters. */
  lemma DefaultMinimumWarningIffSecure(salt: string)
    ensures GetSaltWarning(AnonymizationSettings(salt, DefaultMinSaltLength)) == ""
        <==> IsSaltSecure(AnonymizationSettings(salt, DefaultMinSaltLength))
  {
    WarningEmptyIffSecure(AnonymizationSettings(salt, DefaultMinSaltLength));
  }

  /** With a minimum of 12 the equivalence fails: "default_salt" is denied yet draws no warning. */
  lemma WarningCanMissDeniedSalt()
    ensures var s := AnonymizationSettings("default_salt", 12);
      GetSaltWarning(s) == "" && !IsSaltSecure(s)
  {
  }

  /** The shipped settings are insecure and say so. */
  lemma DefaultSaltIsInsecure()
    ensures !IsSaltSecure(Defaults)
    ensures GetSaltWarning(Defaults) == CriticalWarning
  {
  }
}

/**
 * The record schemas of the IBGE extraction pipeline and the validators that
 * split a batch of records into the accepted ones (as the schema returns them)
 * and the rejected ones (each kept with the fields whose constraints it broke).
 *
 * Records are typed: the schema library's type coercion is not modelled, so a
 * field carries a value of its declared type and only the declared bounds can
 * fail.
 */
module DataValidator {
  import opened Wrappers
  import opened Strings

  /** The schema fields a constraint can be violated on. */
  datatype Field = Id | Sigla | Nome | RegiaoId | RegiaoSigla | RegiaoNome | UfId | UfSigla | UfNome | Ano | Valor

  /** A rejected record: the record as given and the violated fields, in declaration order. */
  datatype Rejected<R> = Rejected(record: R, errors: seq<Field>)

  type Validation<R> = Result<R, seq<Field>>

  predicate Between(x: int, lo: int, hi: int) { lo <= x <= hi }

  predicate LengthIn(s: string, lo: nat, hi: nat) { lo <= |s| <= hi }

  /** The error list entry of one constraint. */
  function Check(holds: bool, field: Field): (r: seq<Field>)
    ensures forall f :: f in r <==> !holds && f == field
    ensures |r| <= 1
  {
    if holds then [] else [field]
  }

  // ------------------------------------------------------------------ regions

  datatype Regiao = Regiao(id: int, sigla: string, nome: string)

  /** `RegiaoSchema`: id 1..5, sigla of 1–2 characters, nome of 2–50. */
  predicate RegiaoValid(r: Regiao)
  {
    Between(r.id, 1, 5) && LengthIn(r.sigla, 1, 2) && LengthIn(r.nome, 2, 50)
  }

  function RegiaoErrors(r: Regiao): (e: seq<Field>)
    ensures Id in e <==> !Between(r.id, 1, 5)
    ensures Sigla in e <==> !LengthIn(r.sigla, 1, 2)
    ensures Nome in e <==> !LengthIn(r.nome, 2, 50)
    ensures e == [] <==> RegiaoValid(r)
  {
    Check(Between(r.id, 1, 5), Id) + Check(LengthIn(r.sigla, 1, 2), Sigla) + Check(LengthIn(r.nome, 2, 50), Nome)
  }

  /** `RegiaoSchema(**record).model_dump()`: the record unchanged, or the violated fields. */
  function ValidateRegiao(r: Regiao): (v: Validation<Regiao>)
    ensures v.Ok? <==> RegiaoValid(r)
    ensures v.Ok? ==> v.value == r
    ensures v.Err? ==> v.error == RegiaoErrors(r) && v.error != []
  {
    var e := RegiaoErrors(r);
    if e == [] then Ok(r) else Err(e)
  }

  // ------------------------------------------------------------------- states

  datatype Estado = Estado(id: int, sigla: string, nome: string, regiaoId: int, regiaoSigla: string, regiaoNome: string)

  /** `EstadoSchema`: id 11..53, sigla of exactly 2 characters, regiao_id 1..5, the names bounded. */
  predicate EstadoValid(r: Estado)
  {
    && Between(r.id, 11, 53) && LengthIn(r.sigla, 2, 2) && LengthIn(r.nome, 2, 50)
    && Between(r.regiaoId, 1, 5) && LengthIn(r.regiaoSigla, 1, 2) && LengthIn(r.regiaoNome, 2, 50)
  }

  /** The constraints on the region a record refers to, shared by states and municipalities. */
  function RegionRefErrors(regiaoId: int, regiaoSigla: string, regiaoNome: string): (e: seq<Field>)
    ensures RegiaoId in e <==> !Between(regiaoId, 1, 5)
    ensures RegiaoSigla in e <==> !LengthIn(regiaoSigla, 1, 2)
    ensures RegiaoNome in e <==> !LengthIn(regiaoNome, 2, 50)
    ensures forall f :: f in e ==> f == RegiaoId || f == RegiaoSigla || f == RegiaoNome
  {
    Check(Between(regiaoId, 1, 5), RegiaoId) + Check(LengthIn(regiaoSigla, 1, 2), RegiaoSigla)
    + Check(LengthIn(regiaoNome, 2, 50), RegiaoNome)
  }

  function EstadoErrors(r: Estado): (e: seq<Field>)
    ensures Id in e <==> !Between(r.id, 11, 53)
    ensures Sigla in e <==> !LengthIn(r.sigla, 2, 2)
    ensures Nome in e <==> !LengthIn(r.nome, 2, 50)
    ensures RegiaoId in e <==> !Between(r.regiaoId, 1, 5)
    ensures RegiaoSigla in e <==> !LengthIn(r.regiaoSigla, 1, 2)
    ensures RegiaoNome in e <==> !LengthIn(r.regiaoNome, 2, 50)
    ensures e == [] <==> EstadoValid(r)
  {
    Check(Between(r.id, 11, 53), Id) + Check(LengthIn(r.sigla, 2, 2), Sigla) + Check(LengthIn(r.nome, 2, 50), Nome)
    + RegionRefErrors(r.regiaoId, r.regiaoSigla, r.regiaoNome)
  }

  /** The `sigla` validator: a sigla that is not upper case is upper-cased, never rejected. */
  function NormaliseSigla(s: string): (r: string)
    ensures |r| == |s|
    ensures forall i :: 0 <= i < |r| ==> !('a' <= r[i] <= 'z')
    ensures IsUpper(s) ==> r == s
  {
    if IsUpper(s) then s else Upper(s)
  }

  /** `EstadoSchema(**record).model_dump()`: the record with its sigla upper-cased, or the violated fields. */
  function ValidateEstado(r: Estado): (v: Validation<Estado>)
    ensures v.Ok? <==> EstadoValid(r)
    ensures v.Ok? ==> v.value == r.(sigla := NormaliseSigla(r.sigla)) && EstadoValid(v.value)
    ensures v.Err? ==> v.error == EstadoErrors(r) && v.error != []
  {
    var e := EstadoErrors(r);
    if e == [] then Ok(r.(sigla := NormaliseSigla(r.sigla))) else Err(e)
  }

  // ----------------------------------------------------------- municipalities

  datatype Municipio = Municipio(
    id: int, nome: string,
    microrregiaoId: Option<int>, microrregiaoNome: Option<string>,
    mesorregiaoId: Option<int>, mesorregiaoNome: Option<string>,
    ufId: int, ufSigla: string, ufNome: string,
    regiaoId: int, regiaoSigla: string, regiaoNome: string)

  /** `MunicipioSchema`: a 7-digit IBGE code, uf_id 11..53, regiao_id 1..5, the names and siglas bounded. */
  predicate MunicipioValid(r: Municipio)
  {
    && Between(r.id, 1000000, 9999999) && LengthIn(r.nome, 2, 100)
    && Between(r.ufId, 11, 53) && LengthIn(r.ufSigla, 2, 2) && LengthIn(r.ufNome, 2, 50)
    && Between(r.regiaoId, 1, 5) && LengthIn(r.regiaoSigla, 1, 2) && LengthIn(r.regiaoNome, 2, 50)
  }

  /** The constraints on the state a municipality refers to. */
  function StateRefErrors(ufId: int, ufSigla: string, ufNome: string): (e: seq<Field>)
    ensures UfId in e <==> !Between(ufId, 11, 53)
    ensures UfSigla in e <==> !LengthIn(ufSigla, 2, 2)
    ensures UfNome in e <==> !LengthIn(ufNome, 2, 50)
    ensures forall f :: f in e ==> f == UfId || f == UfSigla || f == UfNome
  {
    Check(Between(ufId, 11, 53), UfId) + Check(LengthIn(ufSigla, 2, 2), UfSigla) + Check(LengthIn(ufNome, 2, 50), UfNome)
  }

  /** The constraint of field `f` that a municipality breaks, if any. */
  predicate MunicipioViolates(r: Municipio, f: Field)
  {
    match f
    case Id => !Between(r.id, 1000000, 9999999)
    case Nome => !LengthIn(r.nome, 2, 100)
    case UfId => !Between(r.ufId, 11, 53)
    case UfSigla => !LengthIn(r.ufSigla, 2, 2)
    case UfNome => !LengthIn(r.ufNome, 2, 50)
    case RegiaoId => !Between(r.regiaoId, 1, 5)
    case RegiaoSigla => !LengthIn(r.regiaoSigla, 1, 2)
    case RegiaoNome => !LengthIn(r.regiaoNome, 2, 50)
    case _ => false
  }

  function MunicipioErrors(r: Municipio): (e: seq<Field>)
    ensures forall f :: f in e <==> MunicipioViolates(r, f)
  {
    Check(Between(r.id, 1000000, 9999999), Id) + Check(LengthIn(r.nome, 2, 100), Nome)
    + StateRefErrors(r.ufId, r.ufSigla, r.ufNome) + RegionRefErrors(r.regiaoId, r.regiaoSigla, r.regiaoNome)
  }

  /** No error is reported exactly when the municipality satisfies its schema. */
  lemma MunicipioErrorsEmpty(r: Municipio)
    ensures MunicipioErrors(r) == [] <==> MunicipioValid(r)
  {
    var e := MunicipioErrors(r);
    if e == [] {
      assert !MunicipioViolates(r, Id) && !MunicipioViolates(r, Nome);
      assert !MunicipioViolates(r, UfId) && !MunicipioViolates(r, UfSigla) && !MunicipioViolates(r, UfNome);
      assert !MunicipioViolates(r, RegiaoId) && !MunicipioViolates(r, RegiaoSigla) && !MunicipioViolates(r, RegiaoNome);
    } else {
      assert MunicipioViolates(r, e[0]);
    }
  }

  function ValidateMunicipio(r: Municipio): (v: Validation<Municipio>)
    ensures v.Ok? <==> MunicipioValid(r)
    ensures v.Ok? ==> v.value == r
    ensures v.Err? ==> v.error == MunicipioErrors(r) && v.error != []
  {
    MunicipioErrorsEmpty(r);
    var e := MunicipioErrors(r);
    if e == [] then Ok(r) else Err(e)
  }

  /** A municipality code passes exactly when it is written with seven digits, as IBGE codes are. */
  lemma MunicipioCodeDigits(r: Municipio)
    requires r.id >= 0
    ensures Between(r.id, 1000000, 9999999) <==> |Decimal(r.id)| == 7
  {
    assert Pow10(6) == 1000000 by {
      assert Pow10(3) == 1000;
    }
    assert Pow10(7) == 10000000;
    DecimalWidth(r.id, 7);
  }

  /** `Decimal(n)` has `k` digits exactly when 10^(k-1) <= n < 10^k. */
  lemma {:induction false} DecimalWidth(n: nat, k: nat)
    requires k >= 1 && (n >= 1 || k >= 2)
    ensures |Decimal(n)| == k <==> Pow10(k - 1) <= n < Pow10(k)
  {
    if n < 10 {
      if k >= 2 {
        PowAtLeast(k - 1);
      }
    } else if k == 1 {
      assert Pow10(1) == 10;
    } else {
      var p := Pow10(k - 2);
      assert Pow10(k - 1) == 10 * p;
      assert Pow10(k) == 100 * p;
      DecimalWidth(n / 10, k - 1);
    }
  }

  lemma {:induction false} PowAtLeast(k: nat)
    requires k >= 1
    ensures Pow10(k) >= 10
  {
    if k > 1 {
      PowAtLeast(k - 1);
    }
  }

  // ------------------------------------------------------- statistical series

  /** A row of a population or GDP series, as the SIDRA flattener produces it. */
  datatype Observation = Observation(
    variavelId: string, variavelNome: string, unidade: string,
    localidadeId: string, localidadeNome: string, localidadeNivel: Option<string>,
    ano: int, valor: real)

  /**
   * `PopulacaoSchema`: a year in 1900..2100 and not beyond next year, a
   * non-negative value. `currentYear` is the year of the clock at validation time.
   */
  predicate PopulacaoValid(currentYear: int, r: Observation)
  {
    Between(r.ano, 1900, 2100) && r.ano <= currentYear + 1 && r.valor >= 0.0
  }

  function PopulacaoErrors(currentYear: int, r: Observation): (e: seq<Field>)
    ensures Ano in e <==> !(Between(r.ano, 1900, 2100) && r.ano <= currentYear + 1)
    ensures Valor in e <==> r.valor < 0.0
    ensures e == [] <==> PopulacaoValid(currentYear, r)
  {
    Check(Between(r.ano, 1900, 2100) && r.ano <= currentYear + 1, Ano) + Check(r.valor >= 0.0, Valor)
  }

  function ValidatePopulacao(currentYear: int, r: Observation): (v: Validation<Observation>)
    ensures v.Ok? <==> PopulacaoValid(currentYear, r)
    ensures v.Ok? ==> v.value == r
    ensures v.Err? ==> v.error == PopulacaoErrors(currentYear, r) && v.error != []
  {
    var e := PopulacaoErrors(currentYear, r);
    if e == [] then Ok(r) else Err(e)
  }

  /** The population schema once the clock is read. */
  function PopulacaoCheck(currentYear: int): Observation -> Validation<Observation>
  {
    r => ValidatePopulacao(currentYear, r)
  }

  /** The year bound follows the clock: a year accepted now is accepted in every later year. */
  lemma PopulacaoLaterClock(currentYear: int, later: int, r: Observation)
    requires currentYear <= later && PopulacaoValid(currentYear, r)
    ensures PopulacaoValid(later, r)
  {
  }

  /** `PIBSchema`: only the year is bounded; a GDP value may be negative. */
  predicate PibValid(r: Observation)
  {
    Between(r.ano, 1900, 2100)
  }

  function ValidatePib(r: Observation): (v: Validation<Observation>)
    ensures v.Ok? <==> PibValid(r)
    ensures v.Ok? ==> v.value == r
    ensures v.Err? ==> v.error == [Ano]
  {
    if Between(r.ano, 1900, 2100) then Ok(r) else Err([Ano])
  }

  /** Every valid population row is a valid GDP row whatever the clock says, but not conversely. */
  lemma PopulacaoStricterThanPib(currentYear: int, r: Observation)
    ensures PopulacaoValid(currentYear, r) ==> PibValid(r)
    ensures PibValid(r) && r.valor < 0.0 ==> !PopulacaoValid(currentYear, r)
  {
  }

  // ------------------------------------------------------------ the partition

  /** `(valid, invalid)` after the validation loop over `data`. */
  function Split<R>(validate: R -> Validation<R>, data: seq<R>): (seq<R>, seq<Rejected<R>>)
  {
    if data == [] then ([], [])
    else
      var prior := Split(validate, data[..|data| - 1]);
      var r := data[|data| - 1];
      match validate(r)
      case Ok(v) => (prior.0 + [v], prior.1)
      case Err(e) => (prior.0, prior.1 + [Rejected(r, e)])
  }

  /** Each record lands in exactly one of the two lists. */
  lemma {:induction false} SplitCount<R>(validate: R -> Validation<R>, data: seq<R>)
    ensures |Split(validate, data).0| + |Split(validate, data).1| == |data|
  {
    if data != [] {
      SplitCount(validate, data[..|data| - 1]);
    }
  }

  /** Relative order is kept: splitting `a + b` splits `a`, then `b`. */
  lemma {:induction false} SplitAppend<R>(validate: R -> Validation<R>, a: seq<R>, b: seq<R>)
    ensures Split(validate, a + b).0 == Split(validate, a).0 + Split(validate, b).0
    ensures Split(validate, a + b).1 == Split(validate, a).1 + Split(validate, b).1
  {
    if b == [] {
      assert a + b == a;
    } else {
      var init := b[..|b| - 1];
      assert (a + b)[..|a + b| - 1] == a + init;
      assert (a + b)[|a + b| - 1] == b[|b| - 1];
      SplitAppend(validate, a, init);
    }
  }

  /** Every accepted record is what the schema made of some input record. */
  lemma {:induction false} SplitAccepted<R>(validate: R -> Validation<R>, data: seq<R>)
    ensures forall v :: v in Split(validate, data).0 ==> exists r :: r in data && validate(r) == Ok(v)
  {
    if data != [] {
      var init := data[..|data| - 1];
      SplitAccepted(validate, init);
      forall v | v in Split(validate, data).0 ensures exists r :: r in data && validate(r) == Ok(v)
      {
        if v in Split(validate, init).0 {
          var r :| r in init && validate(r) == Ok(v);
          assert r in data;
        } else {
          assert data[|data| - 1] in data;
        }
      }
    }
  }

  /** Every rejected entry holds an input record and exactly the errors the schema reported for it. */
  lemma {:induction false} SplitRejected<R>(validate: R -> Validation<R>, data: seq<R>)
    ensures forall x :: x in Split(validate, data).1 ==> x.record in data && validate(x.record) == Err(x.errors)
  {
    if data != [] {
      var init := data[..|data| - 1];
      SplitRejected(validate, init);
      forall x | x in Split(validate, data).1 ensures x.record in data && validate(x.record) == Err(x.errors)
      {
        if x in Split(validate, init).1 {
          assert x.record in init;
        }
      }
    }
  }

  /** No record is lost: an accepted one shows up among the valid, a rejected one with its errors among the invalid. */
  lemma {:induction false} SplitComplete<R>(validate: R -> Validation<R>, data: seq<R>, i: nat)
    requires i < |data|
    ensures validate(data[i]).Ok? ==> validate(data[i]).value in Split(validate, data).0
    ensures validate(data[i]).Err? ==> Rejected(data[i], validate(data[i]).error) in Split(validate, data).1
  {
    if i < |data| - 1 {
      var init := data[..|data| - 1];
      assert init[i] == data[i];
      SplitComplete(validate, init, i);
    }
  }

  /** Whatever the schema guarantees of the records it returns holds of every accepted record. */
  lemma {:induction false} SplitEstablishes<R>(validate: R -> Validation<R>, good: R -> bool, data: seq<R>)
    requires forall r :: validate(r).Ok? ==> good(validate(r).value)
    ensures forall v :: v in Split(validate, data).0 ==> good(v)
  {
    if data != [] {
      SplitEstablishes(validate, good, data[..|data| - 1]);
    }
  }

  /** The loop shared by every `validate_*`: try the schema on each record, append to `valid` or `invalid`. */
  method Partition<R>(validate: R -> Validation<R>, data: seq<R>) returns (valid: seq<R>, invalid: seq<Rejected<R>>)
    ensures (valid, invalid) == Split(validate, data)
  {
    valid, invalid := [], [];
    var i := 0;
    while i < |data|
      invariant 0 <= i <= |data|
      invariant (valid, invalid) == Split(validate, data[..i])
    {
      assert data[..i + 1][..i] == data[..i];
      match validate(data[i]) {
        case Ok(v) =>
          valid := valid + [v];
        case Err(e) =>
          invalid := invalid + [Rejected(data[i], e)];
      }
      i := i + 1;
    }
    assert data[..i] == data;
  }

  // ------------------------------------------------------------ the validators

  method ValidateRegioes(data: seq<Regiao>) returns (valid: seq<Regiao>, invalid: seq<Rejected<Regiao>>)
    ensures (valid, invalid) == Split(ValidateRegiao, data)
    ensures |valid| + |invalid| == |data|
    ensures forall v :: v in valid ==> RegiaoValid(v)
    ensures forall r :: r in data && RegiaoValid(r) ==> r in valid
    ensures forall x :: x in invalid ==> x.record in data && x.errors == RegiaoErrors(x.record)
  {
    valid, invalid := Partition(ValidateRegiao, data);
    SplitCount(ValidateRegiao, data);
    SplitEstablishes(ValidateRegiao, RegiaoValid, data);
    SplitRejected(ValidateRegiao, data);
    forall r | r in data && RegiaoValid(r) ensures r in valid {
      var i :| 0 <= i < |data| && data[i] == r;
      SplitComplete(ValidateRegiao, data, i);
    }
  }

  method ValidateEstados(data: seq<Estado>) returns (valid: seq<Estado>, invalid: seq<Rejected<Estado>>)
    ensures (valid, invalid) == Split(ValidateEstado, data)
    ensures |valid| + |invalid| == |data|
    ensures forall v :: v in valid ==> EstadoValid(v) && forall i :: 0 <= i < |v.sigla| ==> !('a' <= v.sigla[i] <= 'z')
    ensures forall r :: r in data && EstadoValid(r) ==> r.(sigla := NormaliseSigla(r.sigla)) in valid
    ensures forall x :: x in invalid ==> x.record in data && x.errors == EstadoErrors(x.record)
  {
    valid, invalid := Partition(ValidateEstado, data);
    SplitCount(ValidateEstado, data);
    SplitEstablishes(ValidateEstado, UpperEstado, data);
    SplitRejected(ValidateEstado, data);
    forall r | r in data && EstadoValid(r) ensures r.(sigla := NormaliseSigla(r.sigla)) in valid {
      var i :| 0 <= i < |data| && data[i] == r;
      SplitComplete(ValidateEstado, data, i);
    }
  }

  /** A valid state whose sigla has no lower-case letter. */
  predicate UpperEstado(r: Estado)
  {
    EstadoValid(r) && forall i :: 0 <= i < |r.sigla| ==> !('a' <= r.sigla[i] <= 'z')
  }

  method ValidateMunicipios(data: seq<Municipio>) returns (valid: seq<Municipio>, invalid: seq<Rejected<Municipio>>)
    ensures (valid, invalid) == Split(ValidateMunicipio, data)
    ensures |valid| + |invalid| == |data|
    ensures forall v :: v in valid ==> MunicipioValid(v)
    ensures forall r :: r in data && MunicipioValid(r) ==> r in valid
    ensures forall x :: x in invalid ==> x.record in data && x.errors == MunicipioErrors(x.record)
  {
    valid, invalid := Partition(ValidateMunicipio, data);
    SplitCount(ValidateMunicipio, data);
    SplitEstablishes(ValidateMunicipio, MunicipioValid, data);
    SplitRejected(ValidateMunicipio, data);
    forall r | r in data && MunicipioValid(r) ensures r in valid {
      var i :| 0 <= i < |data| && data[i] == r;
      SplitComplete(ValidateMunicipio, data, i);
    }
  }

  /** `validate_populacao`, with the clock's year as `currentYear`. */
  method ValidatePopulacaoRecords(currentYear: int, data: seq<Observation>)
    returns (valid: seq<Observation>, invalid: seq<Rejected<Observation>>)
    ensures (valid, invalid) == Split(PopulacaoCheck(currentYear), data)
    ensures |valid| + |invalid| == |data|
    ensures forall v :: v in valid ==> PopulacaoValid(currentYear, v)
    ensures forall r :: r in data && PopulacaoValid(currentYear, r) ==> r in valid
    ensures forall x :: x in invalid ==> x.record in data && x.errors == PopulacaoErrors(currentYear, x.record)
  {
    var check := PopulacaoCheck(currentYear);
    valid, invalid := Partition(check, data);
    SplitCount(check, data);
    SplitEstablishes(check, (r: Observation) => PopulacaoValid(currentYear, r), data);
    SplitRejected(check, data);
    forall r | r in data && PopulacaoValid(currentYear, r) ensures r in valid {
      var i :| 0 <= i < |data| && data[i] == r;
      SplitComplete(check, data, i);
    }
  }

  method ValidatePibRecords(data: seq<Observation>) returns (valid: seq<Observation>, invalid: seq<Rejected<Observation>>)
    ensures (valid, invalid) == Split(ValidatePib, data)
    ensures |valid| + |invalid| == |data|
    ensures forall v :: v in valid ==> PibValid(v)
    ensures forall r :: r in data && PibValid(r) ==> r in valid
    ensures forall x :: x in invalid ==> x.record in data && x.errors == [Ano]
  {
    valid, invalid := Partition(ValidatePib, data);
    SplitCount(ValidatePib, data);
    SplitEstablishes(ValidatePib, PibValid, data);
    SplitRejected(ValidatePib, data);
    forall r | r in data && PibValid(r) ensures r in valid {
      var i :| 0 <= i < |data| && data[i] == r;
      SplitComplete(ValidatePib, data, i);
    }
  }
}

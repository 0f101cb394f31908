/** The contact form: `validarEmail`, the three blur checks and the submit
    handler, which writes to `localStorage` (a map from keys to strings). */
module ContactForm {
  import opened JsBuiltins

  /** A character the class `[^\s@]` admits. */
  predicate IsAtomChar(c: char) {
    !IsSpace(c) && c != '@'
  }

  predicate AllAtom(s: string) {
    forall i :: 0 <= i < |s| ==> IsAtomChar(s[i])
  }

  /** The language of `^[^\s@]+@[^\s@]+\.[^\s@]+$`: `s` is a non-empty run of
      atom characters, an `@`, a non-empty run, a `.` and a non-empty run. */
  ghost predicate MatchesEmailPattern(s: string) {
    exists at: nat, dot: nat ::
      0 < at && at + 1 < dot && dot + 1 < |s| && s[at] == '@' && s[dot] == '.'
      && AllAtom(s[..at]) && AllAtom(s[at + 1..dot]) && AllAtom(s[dot + 1..])
  }

  predicate NoSpace(s: string) {
    forall i :: 0 <= i < |s| ==> !IsSpace(s[i])
  }

  function Count(s: string, c: char): nat {
    if s == [] then 0 else (if s[0] == c then 1 else 0) + Count(s[1..], c)
  }

  lemma {:induction false} CountAppend(a: string, b: string, c: char)
    ensures Count(a + b, c) == Count(a, c) + Count(b, c)
  {
    if a == [] {
      assert a + b == b;
    } else {
      assert (a + b)[1..] == a[1..] + b;
      CountAppend(a[1..], b, c);
    }
  }

  lemma {:induction false} CountZero(s: string, c: char)
    ensures Count(s, c) == 0 <==> forall i :: 0 <= i < |s| ==> s[i] != c
  {
    if s != [] {
      CountZero(s[1..], c);
      assert forall i :: 1 <= i < |s| ==> s[1..][i - 1] == s[i];
    }
  }

  /** A run of atom characters is a run without white space and without
      `@`. */
  lemma AtomIff(s: string)
    ensures AllAtom(s) <==> NoSpace(s) && Count(s, '@') == 0
  {
    CountZero(s, '@');
  }

  /** The count of `@` in `p + [x] + q`, and `p + [x] + q` has no white space
      when its three parts have none. */
  lemma Split3(p: string, x: char, q: string)
    ensures Count(p + [x] + q, '@') == Count(p, '@') + Count([x], '@') + Count(q, '@')
    ensures NoSpace(p) && !IsSpace(x) && NoSpace(q) ==> NoSpace(p + [x] + q)
  {
    CountAppend(p + [x], q, '@');
    CountAppend(p, [x], '@');
    var s := p + [x] + q;
    if NoSpace(p) && !IsSpace(x) && NoSpace(q) {
      forall k | 0 <= k < |s| ensures !IsSpace(s[k]) {
        if k < |p| {
          assert s[k] == p[k];
        } else if k > |p| {
          assert s[k] == q[k - |p| - 1];
        }
      }
    }
  }

  /** A `.` with at least one character on each side. */
  predicate HasInnerDot(d: string) {
    exists i :: 0 < i < |d| - 1 && d[i] == '.'
  }

  /** `validarEmail`: no white space, exactly one `@`, a non-empty part
      before it, and after it a `.` with text on both sides. */
  predicate ValidarEmail(email: string) {
    && NoSpace(email)
    && Count(email, '@') == 1
    && var at := IndexOf(email, '@');
       0 < at < |email| && HasInnerDot(email[at + 1..])
  }

  /** Counting `@` on either side of position `k`. */
  lemma SplitCount(s: string, k: nat)
    requires k < |s|
    ensures Count(s, '@') == Count(s[..k], '@') + Count([s[k]], '@') + Count(s[k + 1..], '@')
  {
    assert s == s[..k] + [s[k]] + s[k + 1..];
    CountAppend(s[..k] + [s[k]], s[k + 1..], '@');
    CountAppend(s[..k], [s[k]], '@');
  }

  lemma ValidarEmailIsMatch(email: string)
    requires ValidarEmail(email)
    ensures MatchesEmailPattern(email)
  {
    var at := IndexOf(email, '@');
    var d := email[at + 1..];
    var i :| 0 < i < |d| - 1 && d[i] == '.';
    var dot := at + 1 + i;
    SplitCount(email, at);
    SplitCount(d, i);
    var p1, p2, p3 := email[..at], email[at + 1..dot], email[dot + 1..];
    assert d[..i] == p2 && d[i + 1..] == p3;
    AtomIff(p1);
    AtomIff(p2);
    AtomIff(p3);
    assert email[dot] == '.';
  }

  lemma MatchIsValidarEmail(email: string, at: nat, dot: nat)
    requires 0 < at && at + 1 < dot && dot + 1 < |email| && email[at] == '@' && email[dot] == '.'
    requires AllAtom(email[..at]) && AllAtom(email[at + 1..dot]) && AllAtom(email[dot + 1..])
    ensures ValidarEmail(email)
  {
    var p1, p2, p3 := email[..at], email[at + 1..dot], email[dot + 1..];
    var d := email[at + 1..];
    assert d == p2 + ['.'] + p3;
    assert email == p1 + ['@'] + d;
    AtomIff(p1);
    AtomIff(p2);
    AtomIff(p3);
    Split3(p2, '.', p3);
    Split3(p1, '@', d);
    assert IndexOf(email, '@') == at;
    assert d[dot - at - 1] == '.';
  }

  /** `validarEmail` accepts exactly the strings its regular expression
      matches. */
  lemma ValidarEmailMatchesRegex(email: string)
    ensures ValidarEmail(email) <==> MatchesEmailPattern(email)
  {
    if ValidarEmail(email) {
      ValidarEmailIsMatch(email);
    }
    if MatchesEmailPattern(email) {
      var at: nat, dot: nat :|
        0 < at && at + 1 < dot && dot + 1 < |email| && email[at] == '@' && email[dot] == '.'
        && AllAtom(email[..at]) && AllAtom(email[at + 1..dot]) && AllAtom(email[dot + 1..]);
      MatchIsValidarEmail(email, at, dot);
    }
  }

  /** The blur check on the name: at least two UTF-16 code units once
      trimmed. */
  predicate NombreValido(value: string) {
    Utf16Length(Trim(value)) >= 2
  }

  /** The blur check on the email: `validarEmail` of the trimmed value. */
  predicate EmailValido(value: string) {
    ValidarEmail(Trim(value))
  }

  /** The blur check on the message: at least ten UTF-16 code units once
      trimmed. */
  predicate MensajeValido(value: string) {
    Utf16Length(Trim(value)) >= 10
  }

  /** The status line under the form. */
  datatype Status = Status(text: string, color: string)

  const Advertencia: Status :=
    Status("\U{26A0}\U{FE0F} Por favor, complet\U{E1} todos los campos obligatorios.", "#ff6b6b")

  function Agradecimiento(nombre: string, email: string): Status {
    Status("\U{2705} \U{A1}Gracias, " + nombre + "! Tu mensaje ha sido enviado. Te responderemos a "
      + email + " pronto.", "#7fd8be")
  }

  predicate Incompleto(nombre: string, email: string, mensaje: string) {
    Trim(nombre) == [] || Trim(email) == [] || Trim(mensaje) == []
  }

  /** What one submit leaves in storage and in the status line. */
  datatype Envio = Envio(storage: map<string, string>, status: Status)

  /** Three writes to distinct keys. */
  lemma Update3(m: map<string, string>, k1: string, k2: string, k3: string,
                v1: string, v2: string, v3: string)
    requires k1 != k2 && k1 != k3 && k2 != k3
    ensures var r := m[k1 := v1][k2 := v2][k3 := v3];
      && r.Keys == m.Keys + {k1, k2, k3}
      && r[k1] == v1 && r[k2] == v2 && r[k3] == v3
      && forall k :: k in m && k !in {k1, k2, k3} ==> r[k] == m[k]
  {
  }

  /** The submit handler as a function of the old storage and the raw field
      values: with a required field blank after trimming nothing is stored
      and the warning is shown; otherwise exactly `nombre`, `email` and
      `ultimoContacto` are (over)written, every other key keeps its value,
      and the email's format is not checked. `ahoraIso` is what
      `new Date().toISOString()` returns at that moment. */
  function Enviar(storage: map<string, string>, nombre: string, email: string,
                  mensaje: string, ahoraIso: string): (r: Envio)
    ensures Incompleto(nombre, email, mensaje) ==>
      r.storage == storage && r.status == Advertencia
    ensures !Incompleto(nombre, email, mensaje) ==>
      && r.storage.Keys == storage.Keys + {"nombre", "email", "ultimoContacto"}
      && r.storage["nombre"] == Trim(nombre) && r.storage["email"] == Trim(email)
      && r.storage["ultimoContacto"] == ahoraIso
      && (forall k :: k in storage && k !in {"nombre", "email", "ultimoContacto"} ==>
            r.storage[k] == storage[k])
      && r.status == Agradecimiento(Trim(nombre), Trim(email))
  {
    var n, e, m := Trim(nombre), Trim(email), Trim(mensaje);
    if n == [] || e == [] || m == [] then
      Envio(storage, Advertencia)
    else
      assert "nombre"[0] != "email"[0] && "nombre"[0] != "ultimoContacto"[0] && "email"[0] != "ultimoContacto"[0];
      Update3(storage, "nombre", "email", "ultimoContacto", n, e, ahoraIso);
      Envio(storage["nombre" := n]["email" := e]["ultimoContacto" := ahoraIso],
            Agradecimiento(n, e))
  }

  /** Values that pass all three blur checks are always accepted on
      submit. */
  lemma BlurValidIsAccepted(storage: map<string, string>, nombre: string, email: string,
                            mensaje: string, ahoraIso: string)
    requires NombreValido(nombre) && EmailValido(email) && MensajeValido(mensaje)
    ensures !Incompleto(nombre, email, mensaje)
    ensures Enviar(storage, nombre, email, mensaje, ahoraIso).status
      == Agradecimiento(Trim(nombre), Trim(email))
  {
  }

  /** Submit is looser than the blur checks: a one-character name is marked
      invalid on blur ... */
  lemma BlurRejectsShortName(nombre: string)
    requires |nombre| == 1 && nombre[0] as int < 0x1_0000
    ensures !NombreValido(nombre)
  {
    var t := Trim(nombre);
    if t != [] {
      assert t == nombre;
    }
  }

  /** ... and so is an address without `@` ... yet submit checks only that
      the trimmed fields are non-empty, so such an address is stored. */
  lemma SubmitAcceptsRejectedEmail(storage: map<string, string>, nombre: string, email: string,
                                   mensaje: string, ahoraIso: string)
    requires !Incompleto(nombre, email, mensaje)
    requires Count(Trim(email), '@') == 0
    ensures !EmailValido(email)
    ensures Enviar(storage, nombre, email, mensaje, ahoraIso).storage["email"] == Trim(email)
  {
  }

  /** A name made of one character outside the Basic Multilingual Plane,
      such as a moon emoji, passes the two-character check, because
      `.length` counts its two UTF-16 code units. */
  lemma AstralNameIsLongEnough(nombre: string)
    requires |nombre| == 1 && nombre[0] as int >= 0x1_0000
    ensures NombreValido(nombre)
  {
    TrimKeeps(nombre);
  }

  /** The page whose submit handler writes to `localStorage` and to the
      status line. */
  class ContactPage {
    var localStorage: map<string, string>
    var status: Status

    constructor (storage: map<string, string>, initial: Status)
      ensures localStorage == storage && status == initial
    {
      localStorage := storage;
      status := initial;
    }

    /** The submit listener (the five-second reset timer is not modelled). */
    method Submit(nombreValue: string, emailValue: string, mensajeValue: string, ahoraIso: string)
      modifies this
      ensures localStorage == Enviar(old(localStorage), nombreValue, emailValue, mensajeValue, ahoraIso).storage
      ensures status == Enviar(old(localStorage), nombreValue, emailValue, mensajeValue, ahoraIso).status
    {
      var nombre := Trim(nombreValue);
      var email := Trim(emailValue);
      var mensaje := Trim(mensajeValue);
      if nombre == [] || email == [] || mensaje == [] {
        status := Advertencia;
        return;
      }
      localStorage := localStorage["nombre" := nombre];
      localStorage := localStorage["email" := email];
      localStorage := localStorage["ultimoContacto" := ahoraIso];
      status := Agradecimiento(nombre, email);
    }
  }
}

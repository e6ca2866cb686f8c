/**
 * The compiler's option set (utils.hpp `Settings`): command-line settings
 * kept as strings, either a bare `name` or `name=value`.
 */
module Options {
  import opened Basics

  /** The index of the first `=` in `a`, if any (`std::string::find`). */
  function FindEquals(a: string): (r: Option<nat>)
    ensures r.Some? ==> r.value < |a| && a[r.value] == '=' && '=' !in a[..r.value]
    ensures r.None? ==> '=' !in a
  {
    if a == [] then None
    else if a[0] == '=' then Some(0)
    else
      var rest := FindEquals(a[1..]);
      assert a[1..] == a[1..][..|a| - 1];
      if rest.None? then None
      else
        assert a[..rest.value + 1] == [a[0]] + a[1..][..rest.value];
        Some(rest.value + 1)
  }

  /** `arg.substr(0, arg.find("="))`: the text before the first `=`, or all of it. */
  function KeyOf(a: string): (k: string)
    ensures k <= a && '=' !in k
  {
    match FindEquals(a)
    case None => a
    case Some(i) => a[..i]
  }

  /** Whether the setting carries a value. */
  predicate HasValue(a: string) {
    FindEquals(a).Some?
  }

  /** `arg.substr(arg.find("=") + 1)`: the text after the first `=`. */
  function ValueOf(a: string): (v: string)
    requires HasValue(a)
    ensures a == KeyOf(a) + "=" + v
  {
    var i := FindEquals(a).value;
    assert a == a[..i] + [a[i]] + a[i + 1..];
    a[i + 1..]
  }

  /** A setting written `key=value` with a key free of `=` splits back into that key and that value. */
  lemma {:induction false} KeyValueRoundTrip(key: string, value: string)
    requires '=' !in key
    ensures HasValue(key + "=" + value)
    ensures KeyOf(key + "=" + value) == key && ValueOf(key + "=" + value) == value
  {
    var a := key + "=" + value;
    assert a[|key|] == '=';
    assert a[..|key|] == key;
  }

  /** A bare option name: its key is itself and it carries no value. */
  lemma {:induction false} BareKey(name: string)
    requires '=' !in name
    ensures KeyOf(name) == name && !HasValue(name)
  {
  }

  class Settings {
    /** `_settings`: an unordered set of the settings given. */
    var settings: set<string>

    constructor ()
      ensures settings == {}
    {
      settings := {};
    }

    /** `add`: a setting already present is not added twice. */
    method Add(setting: string)
      modifies this
      ensures settings == old(settings) + {setting}
    {
      settings := settings + {setting};
    }

    /** `isOn`: whether some setting's key (the part before `=`) is `opt`. */
    method IsOn(opt: string) returns (on: bool)
      ensures on <==> exists a :: a in settings && KeyOf(a) == opt
    {
      var rest := settings;
      while rest != {}
        invariant rest <= settings
        invariant forall a :: a in settings - rest ==> KeyOf(a) != opt
        decreases rest
      {
        var a :| a in rest;
        if opt == KeyOf(a) {
          return true;
        }
        rest := rest - {a};
      }
      return false;
    }

    /**
     * `getOptionValue`: the value of a setting `key=...`; the empty string when
     * there is none. With several such settings any one of them may answer,
     * since the set is iterated in no fixed order.
     */
    method GetOptionValue(key: string) returns (value: string)
      ensures (forall a :: a in settings ==> !(HasValue(a) && KeyOf(a) == key)) ==> value == ""
      ensures (exists a :: a in settings && HasValue(a) && KeyOf(a) == key) ==>
        exists a :: a in settings && HasValue(a) && KeyOf(a) == key && value == ValueOf(a)
    {
      var rest := settings;
      while rest != {}
        invariant rest <= settings
        invariant forall a :: a in settings - rest ==> !(HasValue(a) && KeyOf(a) == key)
        decreases rest
      {
        var a :| a in rest;
        if HasValue(a) && key == KeyOf(a) {
          return ValueOf(a);
        }
        rest := rest - {a};
      }
      return "";
    }
  }
}

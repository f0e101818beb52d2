/**
 * `UserSerializer` of core/serializers.py: the password rule applied to the
 * write-only password field, and `create`/`update`, which move the validated
 * fields onto a user and set the password only when a non-empty one is given.
 * A user's fields are a map from attribute name to value; a stored password
 * is modelled by the text it was set from (hashing is left out).
 */
module CoreSerializers {
  import opened Wrappers
  import CoreModels

  const MinPasswordLength: nat := 8
  const PasswordKey: string := "password"
  const RoleKey: string := "role"

  datatype PasswordError = TooShort

  /** `validate_password`: a missing or empty password passes unchanged, a
    * shorter one than eight characters is rejected, any other is returned. */
  function ValidatePassword(value: Option<string>): (r: Result<Option<string>, PasswordError>)
    ensures r.Ok? ==> r.value == value
    ensures r.Err? <==> value.Some? && 0 < |value.value| < MinPasswordLength
  {
    match value
    case None => Ok(value)
    case Some(p) =>
      if p == "" then Ok(value)
      else if |p| < MinPasswordLength then Err(TooShort)
      else Ok(value)
  }

  /** A password that passes validation and will be set is at least eight long. */
  lemma AcceptedPasswordIsLong(p: string)
    requires ValidatePassword(Some(p)).Ok? && p != ""
    ensures |p| >= MinPasswordLength
  {
  }

  datatype PasswordState = Unusable | Usable(raw: string)

  /** Python truthiness of the popped password: present and non-empty. */
  predicate HasPassword(validated: map<string, string>)
  {
    PasswordKey in validated && validated[PasswordKey] != ""
  }

  class UserAccount {
    var attrs: map<string, string>
    var password: PasswordState

    /** The role the user has: the given one, or the model's default. */
    function Role(): string
      reads this
    {
      if RoleKey in attrs then attrs[RoleKey] else CoreModels.DefaultRole
    }

    function Info(id: nat): CoreModels.UserInfo
      reads this
    {
      CoreModels.UserInfo(id, Role())
    }

    /** `create`: every validated field but the password goes onto the new
      * user; a truthy password is set, otherwise it is made unusable. */
    constructor Create(validated: map<string, string>)
      ensures attrs == validated - {PasswordKey}
      ensures password == if HasPassword(validated) then Usable(validated[PasswordKey]) else Unusable
      ensures RoleKey !in validated ==> CoreModels.IsDispatcher(Info(0))
    {
      attrs := validated - {PasswordKey};
      if HasPassword(validated) {
        password := Usable(validated[PasswordKey]);
      } else {
        password := Unusable;
      }
    }

    /** `update`: each remaining validated field is assigned in turn; the
      * password changes only when a non-empty one is supplied. */
    method Update(validated: map<string, string>)
      modifies this
      ensures attrs == old(attrs) + (validated - {PasswordKey})
      ensures forall k :: k in old(attrs) && k !in validated ==> k in attrs && attrs[k] == old(attrs)[k]
      ensures password == if HasPassword(validated) then Usable(validated[PasswordKey]) else old(password)
    {
      var rest := validated - {PasswordKey};
      var todo := rest.Keys;
      while todo != {}
        invariant todo <= rest.Keys
        invariant password == old(password)
        invariant attrs == old(attrs) + (map k | k in rest.Keys - todo :: rest[k])
        decreases todo
      {
        var k :| k in todo;
        ghost var doneBefore := rest.Keys - todo;
        attrs := attrs[k := rest[k]];
        todo := todo - {k};
        assert rest.Keys - todo == doneBefore + {k};
      }
      assert (map k | k in rest.Keys - todo :: rest[k]) == rest;
      if HasPassword(validated) {
        password := Usable(validated[PasswordKey]);
      }
    }
  }
}

/**
 * Registration (backend/authentication/serializers.py): the two password
 * fields must agree, and `create` drops the confirmation before the user is
 * made.  The request's fields are a map from field name to text.
 */
module AuthSerializers {
  import opened Wrappers

  const PasswordMismatch: string := "Password fields didn't match."

  /** The fields `UserRegistrationSerializer` declares, all of them required. */
  const RegistrationFields: set<string> := {"username", "email", "password", "password_confirm"}

  /**
   * `UserRegistrationSerializer.validate`: the fields unchanged when the
   * passwords agree, otherwise the error keyed by "password".  The framework
   * runs it only once every field has passed its own checks.
   */
  function Validate(attrs: map<string, string>): (r: Result<map<string, string>, map<string, string>>)
    requires "password" in attrs && "password_confirm" in attrs
    ensures r.Failure? <==> attrs["password"] != attrs["password_confirm"]
    ensures r.Failure? ==> r.error == map["password" := PasswordMismatch]
    ensures r.Success? ==> r.value == attrs
  {
    if attrs["password"] != attrs["password_confirm"] then Failure(map["password" := PasswordMismatch])
    else Success(attrs)
  }

  /** The arguments of `User.objects.create_user`, a library call outside this model. */
  datatype CreateUserCall = CreateUserCall(username: string, email: string, password: string)

  /** The `validated_data` dictionary, which `create` changes in place. */
  class ValidatedData {
    var entries: map<string, string>

    constructor (entries: map<string, string>)
      ensures this.entries == entries
    {
      this.entries := entries;
    }
  }

  /**
   * `UserRegistrationSerializer.create`: pops `password_confirm` off the
   * dictionary and passes username, email and password on unchanged.
   */
  method Create(validatedData: ValidatedData) returns (call: CreateUserCall)
    requires RegistrationFields <= validatedData.entries.Keys
    modifies validatedData
    ensures validatedData.entries == old(validatedData.entries) - {"password_confirm"}
    ensures "password_confirm" !in validatedData.entries
    ensures call == CreateUserCall(old(validatedData.entries)["username"],
                                   old(validatedData.entries)["email"],
                                   old(validatedData.entries)["password"])
  {
    validatedData.entries := validatedData.entries - {"password_confirm"};
    call := CreateUserCall(validatedData.entries["username"], validatedData.entries["email"],
                           validatedData.entries["password"]);
  }

  /**
   * Registration once every field has passed its own checks (presence, the
   * email format, unique username and email, `validate_password`): `validate`,
   * then `create` on what it returned.
   */
  method Register(attrs: map<string, string>) returns (r: Result<CreateUserCall, map<string, string>>)
    requires RegistrationFields <= attrs.Keys
    ensures r.Failure? <==> attrs["password"] != attrs["password_confirm"]
    ensures r.Failure? ==> r.error == map["password" := PasswordMismatch]
    ensures r.Success? ==> r.value == CreateUserCall(attrs["username"], attrs["email"], attrs["password"])
    ensures r.Success? ==> r.value.password == attrs["password_confirm"]
  {
    var validated := Validate(attrs);
    if validated.Failure? {
      return Failure(validated.error);
    }
    var data := new ValidatedData(validated.value);
    var call := Create(data);
    r := Success(call);
  }
}

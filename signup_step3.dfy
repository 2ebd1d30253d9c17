/**
 * The third sign-up step for doctors (screens/SignupScreen3.js): a biography,
 * a specialization, clinic details and a verification image are added to the
 * form of the earlier steps, and everything is posted as `multipart/form-data`.
 * The picker outcome and the server reply are parameters; the image is kept as
 * the URI of the picked asset.
 */
module SignupStep3 {
  import opened Common
  import opened Multipart
  import SignupStep1
  import SignupStep2

  const Bio := "bio"
  const Specialization := "specialization"
  const ClinicDetails := "clinicDetails"

  const JpegType := "image/jpeg"
  const VerificationFileName := "verification.jpg"

  /** The part names, in the order they are appended. */
  const PartNames := ["f_name", "l_name", "date_of_birth", "email", "gender", "password", "username", "user_type",
                      "info", "specialization", "clinic_details", "verification_image"]

  /** The keys of the earlier steps' form read for the first eight parts, in order. */
  const FormKeys := [SignupStep1.FirstName, SignupStep1.LastName, SignupStep1.DateOfBirth, SignupStep2.Email,
                     SignupStep1.Gender, SignupStep2.Password, SignupStep2.Username, SignupStep1.UserRole]

  /** The keys of the doctor's details read for the next three parts, in order. */
  const InfoKeys := [Bio, Specialization, ClinicDetails]

  /** The text fields as first shown, all empty. */
  function InitialInfo(): (info: map<string, string>)
    ensures info.Keys == {Bio, Specialization, ClinicDetails}
    ensures forall k :: k in info ==> info[k] == ""
  {
    map[Bio := "", Specialization := "", ClinicDetails := ""]
  }

  /** The test of `handleSubmit`: three non-empty texts and a picked image. */
  predicate Complete(info: map<string, string>, image: Option<string>) {
    Truthy(Lookup(info, Bio)) && Truthy(Lookup(info, Specialization)) && Truthy(Lookup(info, ClinicDetails)) && image.Some?
  }

  /** The screen as first shown cannot submit; filling the three texts with non-empty values
      and picking an image always lets it. */
  lemma CompleteAfterFilling(bio: string, specialization: string, clinic: string, uri: string)
    ensures !Complete(InitialInfo(), None)
    ensures bio != "" && specialization != "" && clinic != "" ==>
      Complete(InitialInfo()[Bio := bio][Specialization := specialization][ClinicDetails := clinic], Some(uri))
  {
  }

  class SignupStep3Screen {
    const form: map<string, string>
    var info: map<string, string>
    var verificationImage: Option<string>

    constructor (form: map<string, string>)
      ensures this.form == form && info == InitialInfo() && verificationImage.None?
    {
      this.form := form;
      info := InitialInfo();
      verificationImage := None;
    }

    method HandleChange(field: string, value: string)
      modifies this
      ensures info == old(info)[field := value] && verificationImage == old(verificationImage)
    {
      info := info[field := value];
    }

    /** `pickImage`: a denied permission or a cancelled pick changes nothing. */
    method PickImage(outcome: PickOutcome)
      modifies this
      ensures verificationImage == if outcome.Picked? then Some(outcome.uri) else old(verificationImage)
      ensures info == old(info)
    {
      if outcome.PermissionDenied? {
        return;
      }
      if !outcome.Canceled? {
        verificationImage := Some(outcome.uri);
      }
    }

    /** `handleSubmit`: `request` is the form data posted, if any; `verify` is the e-mail and
        username handed to the e-mail verification screen, if the reply leads there. */
    method HandleSubmit(reply: SignupStep2.SignupReply) returns (request: Option<seq<Part>>, verify: Option<(Option<string>, Option<string>)>)
      ensures request.Some? <==> Complete(info, verificationImage)
      ensures request.Some? ==> |request.value| == |PartNames|
      ensures request.Some? ==> forall i :: 0 <= i < |PartNames| ==> request.value[i].name == PartNames[i]
      ensures request.Some? ==> forall i :: 0 <= i < |FormKeys| ==> request.value[i].value == TextOrUndefined(Lookup(form, FormKeys[i]))
      ensures request.Some? ==> forall i :: 0 <= i < |InfoKeys| ==> request.value[|FormKeys| + i].value == Text(info[InfoKeys[i]])
      ensures request.Some? ==> request.value[11].value == File(verificationImage.value, JpegType, VerificationFileName)
      ensures verify.Some? <==> request.Some? && reply.SignupReplied? && reply.ok && reply.parses
      ensures verify.Some? ==> verify.value == (Lookup(form, SignupStep2.Email), Lookup(form, SignupStep2.Username))
    {
      if !Truthy(Lookup(info, Bio)) || !Truthy(Lookup(info, Specialization)) || !Truthy(Lookup(info, ClinicDetails)) || verificationImage.None? {
        return None, None;
      }
      var parts := seq(|FormKeys|, i requires 0 <= i < |FormKeys| => Part(PartNames[i], TextOrUndefined(Lookup(form, FormKeys[i]))));
      parts := parts + [Part(PartNames[8], Text(info[Bio])), Part(PartNames[9], Text(info[Specialization])),
                        Part(PartNames[10], Text(info[ClinicDetails]))];
      parts := parts + [Part(PartNames[11], File(verificationImage.value, JpegType, VerificationFileName))];
      request := Some(parts);
      verify := None;
      if reply.SignupReplied? && reply.ok && reply.parses {
        verify := Some((Lookup(form, SignupStep2.Email), Lookup(form, SignupStep2.Username)));
      }
    }
  }
}
